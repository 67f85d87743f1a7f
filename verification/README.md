# Verification of the agent board's core algorithms

The repository runs autonomous agents against a kanban board. This project models the parts of it whose correctness
is not visible from one function body, and proves what they promise for all inputs, all runs and all interleavings.
`dafny verify dfyconfig.toml` checks everything.

- **JSON** (`JsStrings`, `JsonGrammar`, `JsonGrammarProofs`, `JsonMeaning`, `StrictJson`, `BoundedJson`, `CanonicalJson`,
  `CanonicalForm`): the two recursive-descent parsers, proved equal to a reference parser that is sound and complete for a
  grammar of concrete syntax trees (sections 4, 6 and 7 of RFC 8259, unique names as in section 2.3 of RFC 7493); what
  literals, escapes, numbers, arrays and objects mean, said of texts alone; and the canonical encoder, whose texts are told
  from their characters.
- **Runtime status** (`RuntimeStatus`, `StatusValidator`, `StatusHistory`, `InterruptionClassifier`): a validator that
  compares neighbours and fills tables in loops, proved to establish its rules for all pairs; the histories these rules
  stand for; and the classifier that depends on them.
- **Fan-out** (`FanoutPaths`, `FanoutGraph`, `FanoutOwnership`, `FanoutPlan`, `FanoutPlanMeaning`, `FanoutParentBody`,
  `Board`, `FanoutApply`, `FanoutApplyProofs`, `FanoutApplyMeaning`, `FanoutIntegration`, `FanoutEvidence`): planning,
  applying a plan to the board exactly once, and the gate before integration; for each of the three also what it means,
  said of its input, of the board or of the evidence alone.
- **Heartbeat daemon** (`HeartbeatLifecycle`, `HeartbeatClaims`): bootstraps, stops, daemons, crashes and reused pids as
  interleaved steps over a lock file and a pidfile; what every answer was based on.
- **Token usage** (`TokenAccounting`, `CodexUsage`, `CodexAttribution`, `ClaudeUsage`, `ClaudeAttribution`): cumulative
  counters with resets, grouping of streamed rows, and to which model, execution and turn every token belongs.
- **Log rotation** (`LogRotation`), **JSON-RPC client** (`RpcClient`, `RpcCuts`, `RpcAnswers`), **stopping a process**
  (`StopSequence`).

`Ordering` and `Wrappers` hold sorting by a key and optional values.

Objects whose methods update fields are classes, loops are loops; each method is proved against a function, a
predicate or a direct statement, and what the source promises is proved about those as lemmas.

## What turned out not to hold as written

Five properties hold only under a condition. For each there is the failing input, and the exact condition, proved in both
directions.

- A retry of an applied fan-out plan converges exactly when the plan has children and their keys are distinct and not
  empty (`RetryConverges`, `AuthorityReadable`). The planner guarantees it, and the command line always plans first
  (packages/cli/src/commands/fanout.ts:399-407); only a caller of the exported function can hand in another plan. Such
  a plan without children, or with two children of one key, passes the approval fence, is applied, and then every call
  for its parent is refused (`EmptyPlanNeverRetried`, `TwinKeysNeverRetried`).
- A step of the heartbeat lifecycle keeps the invariant exactly when it unlinks no live process's lock and does not take
  a killed process for gone while it lives (`StepKeepsInv`); a run keeps it exactly when all its steps do (`InvExactly`).
  Two runs from the start show what happens otherwise: two processes compare one stale lock before either unlinks it,
  and both come to hold the lock (`LateUnlinkTwoHolders`); a daemon outlives the wait after SIGKILL, and its record is
  removed while it loops (`SurvivorLosesRecord`).
- When a call fails while generations above the limit are being unlinked, what is retained may have a hole
  (`HoleInHistory`). It is a suffix of history exactly when the generations unlinked before the failing call are the
  highest of those listed (`WriteSuffixExactly`, over runs `RunSuffixExactly`); it is one wherever the calls fail exactly
  when the directory lists these generations from the highest down (`AnyFailureExactly`). A failure anywhere else in a
  rotation is harmless.
- How the character stream is cut into chunks never matters for requests (`SameStreamSameRequests`). For notifications
  and answered server requests it matters behind a message of the wrong shape: in the same chunk they are still handled,
  in a later one not (`CutShowsBehindFailure`). All cuts within the frame limit agree exactly when no such message can
  come in one buffer with the first one that fails the connection, before a line that is not JSON
  (`AllCutsAgreeExactly`); when the whole stream fits into the buffer, exactly when there is none (`FittingStreamExactly`).

- The key under which the rows of a response are grouped tells it from all other responses exactly when the message's
  identifier holds no colon and the first identifier none behind its first character (`SameResponseExactly`); two
  responses with one key are in `ColonJoinsResponses`.

## Model

| member | source | states |
|---|---|---|
| `JsStrings.AssertUnicodeScalarString` | packages/core/src/external-runtime-generation.ts:131-151 | the loop accepts exactly the strings without control characters in which every surrogate is half of a pair |
| `JsStrings.Utf8OrderIsCodePointOrder` | packages/core/src/external-runtime-generation.ts:542-544 | comparing UTF-8 bytes compares code points |
| `JsStrings.Utf8OrderIsNotUtf16Order` | packages/core/src/external-runtime-generation.ts:728-740 | the byte order of names differs from the UTF-16 order of section 3.2.3 of RFC 8785 |
| `JsStrings.Utf8Injective` | packages/core/src/external-runtime-generation.ts:542-544 | scalar strings with equal bytes are equal, so sorting by bytes leaves no ties |
| `JsonGrammarProofs.TextSound` | packages/core/src/external-runtime-generation.ts:158-303 | whatever the reference parser accepts is a text of the grammar, written from the tree it returns |
| `JsonGrammarProofs.TextComplete` | packages/core/src/external-runtime-generation.ts:158-303 | every text of the grammar is accepted and read back as its tree |
| `JsonGrammarProofs.Unambiguous` | packages/core/src/external-runtime-generation.ts:158-303 | a text has one tree |
| `JsonGrammarProofs.LongestMatch` | packages/core/src/external-runtime-generation.ts:296 | the greedy expression with its optional parts matches the longest literal of the grammar at a place, and fails only where there is none |
| `JsonGrammarProofs.StrictIsLenient` | packages/cli/src/strict-json.ts:150-211 | the core parser's grammar is contained in the CLI's, with the same values |
| `JsonMeaning.LiteralsMean` | packages/core/src/external-runtime-generation.ts:182-193 | the texts null, true and false mean those values |
| `JsonMeaning.CharacterMeans` | packages/core/src/external-runtime-generation.ts:261-267 | a character in quotes that is no control, quotation mark or backslash stands for itself |
| `JsonMeaning.ShortEscapesMean` | packages/core/src/external-runtime-generation.ts:272-280 | each of the eight letters after a backslash stands for its character, as the table in section 7 of RFC 8259 lists them |
| `JsonMeaning.OtherEscapesRefused` | packages/core/src/external-runtime-generation.ts:288-289 | any other letter but u after a backslash is refused, whatever follows |
| `JsonMeaning.HexEscapeMeans` | packages/core/src/external-runtime-generation.ts:281-287 | every code unit is read from its four hexadecimal digits, in either case of each |
| `JsonMeaning.StringsConcatenate` | packages/core/src/external-runtime-generation.ts:252-293 | two quoted texts side by side mean the two strings side by side |
| `JsonMeaning.DecimalMeans` | packages/core/src/external-runtime-generation.ts:295-303 | a number as it is written - sign, digits, point, digits, exponent - is accepted and means its digits at their places, moved by the fraction's length and the exponent |
| `JsonMeaning.NumbersAreDecimals` | packages/core/src/external-runtime-generation.ts:295-303 | and only such texts mean numbers |
| `JsonMeaning.ArrayMeans` | packages/core/src/external-runtime-generation.ts:229-250 | texts between brackets with commas between them mean the array of their values in order |
| `JsonMeaning.ObjectMeans` | packages/core/src/external-runtime-generation.ts:197-227 | pairs of name and value texts between braces mean the object with those members, when the names differ |
| `StrictJson.StrictJsonParser.Parse` | packages/core/src/external-runtime-generation.ts:158-169 | the parser object returns exactly the reference parser's value or error code |
| `StrictJson.StrictJsonParser.ParseValue` | packages/core/src/external-runtime-generation.ts:177-195 | dispatch on the first character, index and value as in the reference parser |
| `StrictJson.StrictJsonParser.ParseObject` | packages/core/src/external-runtime-generation.ts:197-227 | the member loop, with the duplicate check on decoded names |
| `StrictJson.StrictJsonParser.ParseArray` | packages/core/src/external-runtime-generation.ts:229-250 | the element loop |
| `StrictJson.StrictJsonParser.ParseString` | packages/core/src/external-runtime-generation.ts:252-293 | the escape loop decodes what the grammar's pieces mean and refuses control characters and lone surrogates |
| `StrictJson.StrictJsonParser.ParseNumber` | packages/core/src/external-runtime-generation.ts:295-303 | takes the value of the longest number literal of section 6 of RFC 8259 that is written at the index and moves behind it; refused when there is none, or its value is not finite |
| `BoundedJson.StrictJsonParser.Parse` | packages/cli/src/strict-json.ts:30-46 | limits on bytes, depth and tokens on top of the lenient grammar |
| `BoundedJson.StrictJsonParser.ParseValue` | packages/cli/src/strict-json.ts:63-76 | accepts exactly the reference value whose depth and tokens still fit |
| `BoundedJson.StrictJsonParser.ParseObject` | packages/cli/src/strict-json.ts:84-123 | counts a token for every name and value, refuses the limit at the first token over it |
| `BoundedJson.StrictJsonParser.ParseArray` | packages/cli/src/strict-json.ts:125-148 | the element loop with its limits |
| `BoundedJson.StrictJsonParser.ParseString` | packages/cli/src/strict-json.ts:150-189 | the scan finds the token that the built-in parser then decodes |
| `BoundedJson.TokenDecodes` | packages/cli/src/strict-json.ts:155-165 | decoding the raw token from its two quotes gives the value of the scanned pieces |
| `BoundedJson.AcceptedExactly` | packages/cli/src/strict-json.ts:214-216 | a document is accepted exactly when it is in the grammar (names distinct at every level), within the byte limit, nested at most maxDepth and has at most maxTokens values and names |
| `BoundedJson.RaisingLimits` | packages/cli/src/strict-json.ts:214-216 | a corollary of AcceptedExactly: raising limits never changes an accepted value |
| `BoundedJson.StrictImpliesBounded` | packages/cli/src/strict-json.ts:214-216 | what the core parser accepts, this one accepts with the same value under large enough limits |
| `CanonicalJson.KeyOrderForgotten` | packages/core/src/external-runtime-generation.ts:734-737 | sorting the names of an object gives one sequence whatever order they are listed in |
| `CanonicalJson.TreeMeans` | packages/core/src/external-runtime-generation.ts:728-740 | the encoding of a value is the text of a grammatical tree with that value |
| `CanonicalJson.RoundTrip` | packages/core/src/external-runtime-generation.ts:728-740 | parsing the encoding of any encodable value gives the value |
| `CanonicalJson.CanonicalInjective` | packages/core/src/external-runtime-generation.ts:728-740 | values with one canonical text are equal |
| `CanonicalJson.ReencodingIsCanonical` | packages/core/src/external-runtime-generation.ts:769-781 | encoding a parsed text gives the canonical text of its value, and changes nothing exactly when the text was canonical |
| `CanonicalForm.CanonicalTextExactly` | packages/core/src/external-runtime-generation.ts:728-740 | the encodings are exactly the texts of the grammar without white space, with names in strictly rising order of their code points, natural numbers up to 2^53 - 1 in plain decimal, and no escapes but those of quotation mark and backslash |
| `CanonicalForm.CanonicalTreeExactly` | packages/core/src/external-runtime-generation.ts:728-740 | a parsed text of that kind is the encoding of its own value, and no other text is |
| `CanonicalForm.OrderIsUtf8` | packages/core/src/external-runtime-generation.ts:738 | comparing the bytes of two names finds the first code point in which they differ |
| `RuntimeStatus.TimesAreOrdered` | packages/core/src/external-runtime-generation.ts:452-460 | the loop accepts exactly when no two present times decrease, whatever is absent between them |
| `RuntimeStatus.IdentityTextInjective` | packages/core/src/external-runtime-generation.ts:542-544 | valid identities with one canonical text are equal |
| `RuntimeStatus.SubjectTextTells` | packages/core/src/external-runtime-generation.ts:550-576 | the text key of a generation agrees exactly with sameGenerationSubject |
| `RuntimeStatus.AnchorTextInjective` | packages/core/src/external-runtime-generation.ts:622-640 | batches are compared by texts that tell their new identities apart |
| `RuntimeStatus.ObservationTextTells` | packages/core/src/external-runtime-generation.ts:623-640 | batches are compared by texts that tell their observations apart |
| `StatusValidator.CheckTransitions` | packages/core/src/external-runtime-generation.ts:600-658 | the loop over sets and maps accepts exactly when all pairs agree: one generation per running revision, one observation per terminal revision, no identity ended twice, no generation ended in two revisions; and returns the texts of the ended identities |
| `StatusValidator.CheckAttestations` | packages/core/src/external-runtime-generation.ts:659-671 | comparing neighbours establishes, for all pairs of attestations, strict order, one generation and different models, and that no attested identity has ended |
| `StatusValidator.CheckAttestationTimes` | packages/core/src/external-runtime-generation.ts:672-680 | the pass over the attestations sorted by revision accepts exactly when later revisions are not observed earlier, for all pairs |
| `StatusValidator.CheckOrder` | packages/core/src/external-runtime-generation.ts:681-699 | comparing neighbours establishes that revision and observedAt are monotone over all pairs of transitions |
| `StatusValidator.ValidateStatus` | packages/core/src/external-runtime-generation.ts:578-725 | accepts exactly the valid statuses of the expected provider |
| `StatusHistory.ConsistentExactly` | packages/core/src/external-runtime-generation.ts:600-699 | the rules on all pairs of transitions hold exactly when some history explains them: each revision has one happening, observed at one time and not before earlier ones, every generation ends at most once, every transition is one model's report of its revision's happening, and the list is in order with nobody's end twice |
| `InterruptionClassifier.Classify` | packages/core/src/external-runtime-generation.ts:900-945 | returns the first match in list order, and nothing when the input is about another runtime or its times make no sense |
| `InterruptionClassifier.MatchMeans` | packages/core/src/external-runtime-generation.ts:893-945 | a transition matches exactly when it ends the bound generation, has not expired, and the moment of the stop, or the time between the last sight of the old and the first of the new generation, meets the run and lies at most 30000 before its end; deltaMs is the distance from the moment the generation was gone |
| `InterruptionClassifier.OneMatch` | packages/core/src/external-runtime-generation.ts:900-945 | at most one transition of a validated status confirms |
| `InterruptionClassifier.AnswerIsOrderFree` | packages/core/src/external-runtime-generation.ts:900-945 | on a validated status every reordering of the transitions gives the same answer, and there is one exactly when some transition confirms |
| `FanoutPaths.NormalizeRelativePath` | packages/core/src/fanout-plan.ts:224-248 | the segment stack computes the canonical path or refuses |
| `FanoutPaths.CanonicalMeans` | packages/core/src/fanout-plan.ts:224-248 | without a stack: the result joins the names never climbed out of; refused exactly when a character is, when some prefix climbs above the start, or when no name is left |
| `FanoutPaths.CanonicalIsFixpoint` | packages/core/src/fanout-plan.ts:224-248 | the fixpoints are exactly the canonical paths |
| `FanoutPaths.ResultIsCanonical` | packages/core/src/fanout-plan.ts:243-247 | every result is canonical, so normalising is idempotent |
| `FanoutPaths.DescendantIsSegmentPrefix` | packages/core/src/fanout-plan.ts:264-266 | a path lies under a root exactly when the root's segments are a prefix of its own |
| `FanoutPaths.SharedDescendant` | packages/core/src/fanout-plan.ts:264-266 | two roots of one path are comparable |
| `FanoutGraph.DependencyWalk.Visit` | packages/core/src/fanout-plan.ts:292-305 | the recursive visit ends, keeps the visited keys in topological order, and refuses only when it closes a cycle |
| `FanoutGraph.AssertAcyclic` | packages/core/src/fanout-plan.ts:288-309 | accepts exactly the graphs without a cycle |
| `FanoutGraph.OrderedMeansAcyclic` | packages/core/src/fanout-plan.ts:288-309 | a topological order of all keys excludes cycles |
| `FanoutOwnership.CollectOwners` | packages/core/src/fanout-plan.ts:312-320 | accepts exactly when every owned path is in scope, and lists the owners |
| `FanoutOwnership.FindNoClash` | packages/core/src/fanout-plan.ts:322-336 | comparing each pair once finds a clash exactly when two children's paths are comparable |
| `FanoutOwnership.AssertOwnership` | packages/core/src/fanout-plan.ts:311-346 | accepts exactly the partitions |
| `FanoutOwnership.ChecksArePartition` | packages/core/src/fanout-plan.ts:311-346 | the three checks hold exactly when every path in scope has exactly one owner and no path out of scope has any |
| `FanoutOwnership.SingleOwner` | packages/core/src/fanout-plan.ts:322-336 | no path has two owners |
| `FanoutPlan.CreateFanoutPlan` | packages/core/src/fanout-plan.ts:380-422 | the structural checks in order and the assembly of the plan; what they accept and what the plan says are the two rows that follow |
| `FanoutPlanMeaning.AcceptedExactly` | packages/core/src/fanout-plan.ts:274-422 | an input is accepted exactly when, said of the input alone, its fields are well formed, its paths readable and its worktrees under the root, keys and worktrees differ, every dependency names another child once, going from dependency to dependency never leads back, every path under a scope root lies under exactly one child's paths and no other path under any, and the gate names every child once |
| `FanoutPlanMeaning.PlanSaysInput` | packages/core/src/fanout-plan.ts:380-422 | the plan's children correspond one to one to the input's, in order of their keys, with the same key, texts and worktree, the same dependencies, and the canonical forms of the owned paths; scope, gate, snapshot and repository are the input's |
| `FanoutPlan.UniqueSortedForgets` | packages/core/src/fanout-plan.ts:250-252 | uniqueSorted forgets order and repetition |
| `FanoutPlan.KnownDependencies` | packages/core/src/fanout-plan.ts:274-286 | after the key check every dependency is a node of the graph the cycle check walks |
| `FanoutPlan.ChecksForget` | packages/core/src/fanout-plan.ts:274-361 | permuting children and required children changes no check |
| `FanoutPlan.PlanIsOrderFree` | packages/core/src/fanout-plan.ts:380-422 | permuting children, dependencies, required children or scope roots, or repeating paths and roots, changes neither acceptance nor the plan |
| `FanoutPlan.AcceptedPlan` | packages/core/src/fanout-plan.ts:380-422 | the checks hold of the plan itself: distinct safe keys, acyclic, a partition of the scope, a gate naming every child once |
| `FanoutPlan.PlanIsFixpoint` | packages/core/src/fanout-plan.ts:380-422 | planning a plan gives the plan |
| `FanoutParentBody.NormalFormMeans` | packages/core/src/fanout-plan.ts:123-127 | two bodies are hashed alike exactly when they have the same lines up to empty ones at the end, whatever ends their lines |
| `FanoutParentBody.NormalizeIdempotent` | packages/core/src/fanout-plan.ts:123-127 | the normal form is a fixpoint |
| `Board.HasDependsOnPath` | packages/core/src/db.ts:5160-5187 | the search with a stack finds a path exactly when there is one |
| `Board.KanbanStore.LinkTasks` | packages/core/src/db.ts:9261-9276 | a link is refused exactly when one of its tasks does not exist or a depends-on link would close a cycle; a refusal changes nothing |
| `Board.KanbanStore.CreateTask` | packages/core/src/db.ts:5403-5447 | a task under an unused id, with its fields as given, unless the verify directive of its body is refused |
| `Board.KanbanStore.BindTaskToOrchestrator` | packages/core/src/db.ts:12082-12098 | refuses exactly an unknown task or orchestrator; otherwise sets the role of the pair and touches no other binding |
| `Board.LinkKeepsAcyclic` | packages/core/src/db.ts:5191-5199 | every accepted link keeps the depends-on links acyclic |
| `Board.LinkAllExact` | packages/core/src/db.ts:5191-5199 | linking a list one by one succeeds exactly when all links together are acyclic, in whatever order |
| `FanoutApply.CreateChildren` | packages/core/src/fanout-apply.ts:290-305 | every child becomes a task under the parent, bound to the caller; refused exactly when the store refuses a body |
| `FanoutApply.LinkDependencies` | packages/core/src/fanout-apply.ts:306-318 | succeeds exactly when every dependency has a task and the store accepts every link, and then has added them all |
| `FanoutApply.MaterializedResult` | packages/core/src/fanout-apply.ts:184-268 | succeeds exactly when the board matches the plan and the marker, and then rebinds the children and returns their rows |
| `FanoutApply.ApplyFanoutPlan` | packages/core/src/fanout-apply.ts:271-352 | fences, authority, retry or first application; a refusal leaves the board as it was |
| `FanoutApplyProofs.FirstApplicationExact` | packages/core/src/fanout-apply.ts:290-351 | past the fences and with distinct keys, the first application succeeds exactly when the store allows every body, every dependency is a child and none form a cycle; the board's links then are the old ones, the subtasks and the plan's graph, and acyclic |
| `FanoutApplyProofs.MirrorAcyclic` | packages/core/src/fanout-apply.ts:306-318 | the board with the plan's links is acyclic exactly when the plan is |
| `FanoutApplyProofs.PlannedIsApplied` | packages/core/src/fanout-apply.ts:271-351 | past the fences a plan made by createFanoutPlan is applied exactly when the store allows the verify directives of its bodies |
| `FanoutApplyProofs.AuthorityReadable` | packages/core/src/fanout-apply.ts:78-103 | the event the first application leaves can be read back exactly when the plan has children with distinct keys that are not empty |
| `FanoutApplyProofs.BuiltIsMaterialized` | packages/core/src/fanout-apply.ts:184-268 | the board the first application leaves passes every check of the retry |
| `FanoutApplyProofs.RetryConverges` | packages/core/src/fanout-apply.ts:271-352 | a retry by the same orchestrator in any active session, on a board whose children only progressed, succeeds exactly for readable authorities; it returns the same task ids with their current rows, creates nothing, and changes nothing if the bindings are still there |
| `FanoutApplyProofs.EmptyPlanNeverRetried` | packages/core/src/fanout-apply.ts:78-103 | on a board with one task a plan without children passes the fences and is applied, and then every call for the parent is refused |
| `FanoutApplyProofs.TwinKeysNeverRetried` | packages/core/src/fanout-apply.ts:78-103 | the same for a plan with two children of one key |
| `FanoutApplyProofs.OneAuthority` | packages/core/src/fanout-apply.ts:97-103 | over any run a parent gets at most one authority event, and keeps it |
| `FanoutApplyProofs.AppliedOnce` | packages/core/src/fanout-apply.ts:271-352 | over any run every success after the first is a retry with the same plan hash and orchestrator, and names the same tasks |
| `FanoutApplyProofs.ForeignCallRefused` | packages/core/src/fanout-apply.ts:190-196 | from the definition: a call with another plan hash or orchestrator leaves the board unchanged |
| `FanoutApplyProofs.SameHashSamePlan` | packages/core/src/fanout-apply.ts:114-136 | from the approval fence: with a hash that tells texts apart, approved calls with one plan hash have one plan |
| `FanoutApplyMeaning.ActsWithAuthority` | packages/core/src/fanout-apply.ts:114-182 | a call succeeds only with the approved plan and its hash, in an active session of the plan's repository, as the one owner of the parent; a refusal changes nothing |
| `FanoutApplyMeaning.FirstSays` | packages/core/src/fanout-apply.ts:290-351 | the first application adds for each child one todo task whose body names the worktree and shows the child's text, links exactly the subtasks and the dependencies of the plan, binds the caller, and leaves one comment and one event listing the tasks; nothing else changes |
| `FanoutApplyMeaning.BodyTells` | packages/core/src/fanout-apply.ts:110-112 | worktree and text of a child can be told from its task's body when the worktree has no line feed |
| `FanoutApplyMeaning.RetryExactly` | packages/core/src/fanout-apply.ts:184-268 | a call that finds one marker succeeds exactly when the marker can be read, is the caller's, and the board still shows the plan on the tasks it lists: texts, one of seven states, one parent, no other owner, exactly the plan's dependencies and subtasks |
| `FanoutApplyMeaning.RetrySays` | packages/core/src/fanout-apply.ts:217-267 | a successful retry returns the listed tasks as they stand and only restores the caller's bindings |
| `FanoutIntegration.PathOwnedMeans` | packages/core/src/fanout-integration.ts:192-204 | a path is owned exactly when its segments are proper names and it lies under an owned path |
| `FanoutEvidence.ReadyExactly` | packages/core/src/fanout-integration.ts:289-367 | for a plan made by createFanoutPlan and an authority that was read, the gate is ready exactly when its input is in order, all of it said of plan, caller, authority and evidence: the fences, a main branch that stood still, one piece of each kind of evidence for each child, each in order, the plan's dependencies and no others, and branches that differ |
| `FanoutEvidence.ReadySays` | packages/core/src/fanout-integration.ts:311-327 | when it is ready, decision i is about the i-th required child and passes on its one piece of Git evidence: the same changed paths, head, branch and worktree, clean, with main as ancestor, every changed path its own; and the run that reviewed its task |
| `FanoutEvidence.ReadyEvidenceDisjoint` | packages/core/src/fanout-integration.ts:279-282 | when it is ready, every path the evidence of a child lists is in scope, and no path of one child's evidence equals, contains or lies inside one of another's |
| `FanoutEvidence.GitExactly` | packages/core/src/fanout-integration.ts:253-284 | a child's Git evidence is accepted exactly when it agrees with plan and repository, and is handed on with its paths in order |
| `FanoutEvidence.BoardExactly` | packages/core/src/fanout-integration.ts:206-251 | a child's board evidence is accepted exactly when the task is the planned one and done, has one owner and one parent, and its latest run is a passed review that ended before it |
| `FanoutIntegration.ReadyIsVerified` | packages/core/src/fanout-integration.ts:206-251 | the run a decision names is a passed review of the task and its latest run, and none is running |
| `FanoutIntegration.ReadyBranchesDiffer` | packages/core/src/fanout-integration.ts:347-349 | the children's branches differ pairwise |
| `FanoutIntegration.ReadyDependencies` | packages/core/src/fanout-integration.ts:328-346 | the depends-on links at the children are exactly the plan's under the authority's tasks |
| `HeartbeatLifecycle.StepKeepsInv` | packages/cli/src/orchestrator-heartbeat-lifecycle.ts:286-748 | a step of any program keeps the invariant exactly when it unlinks no live process's lock and does not take a killed process that lives for gone |
| `HeartbeatLifecycle.InvExactly` | packages/cli/src/orchestrator-heartbeat-lifecycle.ts:286-748 | from an initial state the invariant holds throughout exactly when every step of the run is such a step |
| `HeartbeatLifecycle.Safety` | packages/cli/src/orchestrator-heartbeat-lifecycle.ts:312-748 | in every state of every run of such steps at most one live process holds the lock, at most one daemon loops, and it has its own record in the pidfile |
| `HeartbeatLifecycle.OneHolder` | packages/cli/src/orchestrator-heartbeat-lifecycle.ts:297-359 | mutual exclusion from the invariant |
| `HeartbeatLifecycle.OneLoop` | packages/cli/src/orchestrator-heartbeat-lifecycle.ts:726-747 | a looping daemon's record is the pidfile |
| `HeartbeatLifecycle.ClaimsHold` | packages/cli/src/orchestrator-heartbeat-lifecycle.ts:591-628 | a process reported stopped or stale is gone, then and forever |
| `HeartbeatClaims.NotRunningSawNothing` | packages/cli/src/orchestrator-heartbeat-lifecycle.ts:587-590 | over every chain of steps from an initial state: a stop that answers not-running took a step at which the pidfile was absent |
| `HeartbeatClaims.StoppedWasSignalled` | packages/cli/src/orchestrator-heartbeat-lifecycle.ts:591-628 | one that reports a process stopped read its record in the pidfile and sent it SIGTERM |
| `HeartbeatClaims.StaleWasGone` | packages/cli/src/orchestrator-heartbeat-lifecycle.ts:591-601 | one that reports a stale pidfile read the record and later took a step at which its process was gone |
| `HeartbeatClaims.StartedWasLive` | packages/cli/src/orchestrator-heartbeat-lifecycle.ts:534-546 | a bootstrap that reports a daemon started read its record and later took a step at which its process was live |
| `HeartbeatClaims.LiveDaemonIsStopped` | packages/cli/src/orchestrator-heartbeat-lifecycle.ts:517-631 | an operation that read the record of a live process ends in failure or, as a stop, in having stopped that process after a signal |
| `HeartbeatClaims.LiveDaemonIsLeft` | packages/cli/src/orchestrator-heartbeat-lifecycle.ts:517-524 | it spawns nothing, and a bootstrap touches nothing but the lock |
| `HeartbeatClaims.SignalHasTarget` | packages/cli/src/orchestrator-heartbeat-lifecycle.ts:476-499 | whoever gets a signal is the process of a record the sender read, or has the pid of the daemon it spawned; SIGKILL only after SIGTERM |
| `HeartbeatClaims.SpawnSawNobody` | packages/cli/src/orchestrator-heartbeat-lifecycle.ts:517-531 | a daemon is spawned only after the pidfile was absent, or held the record of a process that was gone |
| `HeartbeatClaims.DaemonSawItsLock` | packages/cli/src/orchestrator-heartbeat-lifecycle.ts:711-726 | a daemon creates the pidfile only after it saw the lock with the token it was spawned with |
| `HeartbeatClaims.SuccessLeavesNoTrace` | packages/cli/src/orchestrator-heartbeat-lifecycle.ts:593-630 | in runs of timely steps a success leaves no lock of the caller, and no record of the process reported stopped or stale |
| `HeartbeatClaims.UsualRun` | packages/cli/src/orchestrator-heartbeat-lifecycle.ts:501-632 | a run from an initial state in which a bootstrap starts a daemon and says so, and a stop ends it and says so, with lock and pidfile absent at the end |
| `HeartbeatLifecycle.SignalFollowsCheck` | packages/cli/src/orchestrator-heartbeat-lifecycle.ts:476-499 | a signal goes to a pid only after the sender's preceding step saw the recorded process live on it |
| `HeartbeatLifecycle.LateUnlinkTwoHolders` | packages/cli/src/orchestrator-heartbeat-lifecycle.ts:297-302 | a run from an initial state with a stale lock: two operations compare it, one replaces it, the other unlinks the new one, and both hold the lock |
| `HeartbeatLifecycle.SurvivorLosesRecord` | packages/cli/src/orchestrator-heartbeat-lifecycle.ts:495-498 | a run from an initial state: a bootstrap gives up on its daemon and kills it, the daemon outlives the wait, and its record is removed while it loops |
| `TokenAccounting.ModelTokenAccumulator.Add` | packages/adapters/src/native-usage.ts:130-156 | adds to one model, keeping unreported parts apart from zero |
| `TokenAccounting.ModelsHoldSpent` | packages/adapters/src/native-usage.ts:127-156 | the accumulator holds exactly the models that were named, each with what was spent on it |
| `TokenAccounting.ExecutionTokenAccumulator.AddTurn` | packages/adapters/src/native-usage.ts:182-214 | a turn's entries, skipping empty ones and counting the turn once per execution |
| `TokenAccounting.ExecutionKeyInjective` | packages/core/src/usage.ts:38-42 | the key text tells provider, model and effort apart whatever the model is called |
| `CodexUsage.CollectCodexNativeUsage` | packages/adapters/src/native-usage.ts:893-1039 | the loop over the rows with its accumulators, unreadable at the first inconsistent snapshot |
| `CodexUsage.Conservation` | packages/adapters/src/native-usage.ts:939-978 | summed over models, input with cache reads, cache reads, cache writes and output are the final counters of the reset-free segments added up |
| `CodexUsage.AggregatesAgree` | packages/adapters/src/native-usage.ts:971-1009 | models, executions, the turn series and mainInputTokens show the same tokens, and all count the same turns |
| `CodexUsage.ModelsAddUp` | packages/adapters/src/native-usage.ts:965-987 | for every model its executions add up to it, and reasoning stays within output |
| `CodexUsage.RepeatsDoNotCount` | packages/adapters/src/native-usage.ts:939-970 | a token count repeated right after itself changes nothing in the final state but the observed time span |
| `CodexAttribution.Attributed` | packages/adapters/src/native-usage.ts:916-1013 | against the rows alone: every model's and every execution's tokens are the sums of the growths of the counted rows that belong to it - by the last turn that names a model, otherwise the first session row that does, otherwise unknown, and by the last turn's effort - and are missing when there are none; turn k shows model, effort, time and tokens of the k-th counted row; context, window, input and time span are those of the rows |
| `CodexAttribution.ReadableExactly` | packages/adapters/src/native-usage.ts:939-969 | the log is readable exactly when no snapshot grows by more cached input than input or more reasoning than output over what the rows before it stand at |
| `CodexAttribution.ObservedExactly` | packages/adapters/src/native-usage.ts:1016-1018 | usage is observed exactly for a readable log with a counted row |
| `ClaudeUsage.ExtractClaudeResponseUsage` | packages/adapters/src/native-usage.ts:578-652 | the loop over iterations: billing all of them, the context from the last message, the top level as fallback |
| `ClaudeUsage.EntriesSumToTotals` | packages/adapters/src/native-usage.ts:602-635 | the billed entries always add up to the totals, also after the fallback |
| `ClaudeUsage.ReadRows` | packages/adapters/src/native-usage.ts:698-742 | the grouping loop over one file |
| `ClaudeUsage.KeptIsFirstLargest` | packages/adapters/src/native-usage.ts:716-741 | a group keeps the first row with the largest output among the rows with its key, and is the main session's exactly when one of them is |
| `ClaudeUsage.InterleavingFree` | packages/adapters/src/native-usage.ts:687-768 | how the rows of different responses interleave changes neither perModel nor turns |
| `ClaudeUsage.CollectClaudeNativeUsage` | packages/adapters/src/native-usage.ts:673-782 | files, groups, totals and main session as specified; unreadable when a file is too large |
| `ClaudeUsage.Conservation` | packages/adapters/src/native-usage.ts:745-768 | summed over models, the tokens are the totals of the kept rows |
| `ClaudeUsage.BuildClaudeMainSession` | packages/adapters/src/native-usage.ts:437-514 | the loop over the main groups |
| `ClaudeUsage.MainAtMostOverall` | packages/adapters/src/native-usage.ts:437-514 | for every model the main session spends at most what is spent overall |
| `ClaudeUsage.MainAggregatesAgree` | packages/adapters/src/native-usage.ts:453-510 | the main session's models, executions, turn series and input total show the same tokens |
| `ClaudeUsage.ContextIsLatest` | packages/adapters/src/native-usage.ts:461-463 | when all timestamps are present the context row is the last by timestamp, then by first appearance |
| `ClaudeUsage.ValuesInOrder` | packages/adapters/src/native-usage.ts:438-440 | the groups' insertion order is their order of first appearance, so sorting by it changes nothing |
| `ClaudeAttribution.ResponseExactly` | packages/adapters/src/native-usage.ts:578-652 | a response bills each iteration with its own counts to the model that pays - the message's, or for other iterations the advisor's, the iteration's or the message's - with the thinking at the last message, or, when none carries anything, its own counts; the context is the last message's |
| `ClaudeAttribution.SessionAttributed` | packages/adapters/src/native-usage.ts:453-495 | every model's and every execution's tokens of the main session are the sums of what its turns spend on it, a turn counts once for each execution, and both tables name exactly those spent on |
| `ClaudeAttribution.AllAttributed` | packages/adapters/src/native-usage.ts:745-768 | the same of the models over all sessions |
| `ClaudeAttribution.SeriesShows` | packages/adapters/src/native-usage.ts:483-495 | turn k of the series shows model, effort, context, totals, time and reported parts of the k-th main response |
| `ClaudeAttribution.MainTurnsExactly` | packages/adapters/src/native-usage.ts:437-443 | a response is a turn of the main session exactly when one of its rows is the main session's and the first row with the largest output carries tokens |
| `ClaudeAttribution.ResponsesByAppearance` | packages/adapters/src/native-usage.ts:687-733 | responses are listed in the order of their first rows |
| `ClaudeAttribution.GroupTimes` | packages/adapters/src/native-usage.ts:735-739 | a response's time is the last timestamp among the rows that raise its output |
| `ClaudeAttribution.LatestByTime` | packages/adapters/src/native-usage.ts:461-463 | when all timestamps are there, the context is that of the turn with the largest, and of those the one that appeared last |
| `ClaudeAttribution.SessionSpans` | packages/adapters/src/native-usage.ts:456-460 | the time span of the main session is from the earliest to the latest time of its turns |
| `ClaudeAttribution.RowsSpan` | packages/adapters/src/native-usage.ts:717-718 | that of the observation from the earliest to the latest time of all rows with an identifier |
| `ClaudeAttribution.SameResponseExactly` | packages/adapters/src/native-usage.ts:711-716 | a row without an identifier belongs to no response; the key of any other is shared exactly by the rows that agree on the first identifier they have and on the message's, if and only if these hold no colon (but for a first character) |
| `ClaudeAttribution.ColonJoinsResponses` | packages/adapters/src/native-usage.ts:716 | two rows of different responses with one key |
| `ClaudeAttribution.RowsTagged` | packages/adapters/src/native-usage.ts:690-723 | the rows of all files are read in order, and a row is the main session's exactly when its file is the first and it is no side chain's |
| `LogRotation.LogFile.PruneGenerationsAtOrAbove` | packages/core/src/log-rotation.ts:130-148 | unlinks the listed generations at or above the threshold until a call fails |
| `LogRotation.LogFile.RotateLogFile` | packages/core/src/log-rotation.ts:157-168 | the descending renames; each target is absent when it is renamed to |
| `LogRotation.LogFile.RenameSync` | packages/core/src/log-rotation.ts:162-166 | no rename overwrites a file |
| `LogRotation.LogFile.Write` | packages/core/src/logger.ts:31-58 | rotate when full, then append whatever became of the rotation |
| `LogRotation.RetainedIsSuffix` | packages/core/src/log-rotation.ts:157-180 | over any run, with any generation limit at each write and calls failing anywhere, the files read from the highest generation down are a suffix of everything written, if each prune unlinks the highest listed generations first as far as its calls succeed |
| `LogRotation.WriteSuffixExactly` | packages/core/src/log-rotation.ts:130-180 | of distinct lines in files that are not empty, what one write retains is a suffix exactly when the generations unlinked before the failing call are the highest listed ones, or it does not rotate |
| `LogRotation.AnyFailureExactly` | packages/core/src/log-rotation.ts:130-180 | it is a suffix wherever the calls of a rotating write fail, exactly when the directory lists the generations to unlink from the highest down |
| `LogRotation.RunSuffixExactly` | packages/core/src/log-rotation.ts:130-180 | over a run that writes distinct lines, what is retained is a suffix of everything written after every write exactly when every prune unlinks the highest first as far as it comes |
| `LogRotation.RotationFailsExactly` | packages/core/src/log-rotation.ts:130-168 | a rotation fails exactly when a call before the last one it needs does: one for each generation to unlink and one for each to rename |
| `LogRotation.HoleInHistory` | packages/core/src/log-rotation.ts:136-147 | a directory order and a failing unlink that leave a hole in the history |
| `LogRotation.GenerationsBounded` | packages/core/src/log-rotation.ts:157-168 | after a rotation whose calls succeed at most maxGenerations rotated files remain, and the current file holds the new line alone |
| `LogRotation.RunKeepsSizes` | packages/core/src/log-rotation.ts:171-180 | with one threshold and the calls of every rotation succeeding, every file is below the threshold without its last line, and every rotated file at least the threshold |
| `RpcClient.CodexAppServerRpcClient.OnData` | packages/adapters/src/codex-app-server-rpc.ts:513-542 | the framing loop of the data handler |
| `RpcClient.CodexAppServerRpcClient.SendRequest` | packages/adapters/src/codex-app-server-rpc.ts:641-690 | a new id, a pending entry and a timer, or an immediate rejection when the frame cannot be written |
| `RpcClient.CodexAppServerRpcClient.RejectAll` | packages/adapters/src/codex-app-server-rpc.ts:565-571 | every pending request is rejected once, in order, and its timer cleared |
| `RpcClient.CodexAppServerRpcClient.Handle` | packages/adapters/src/codex-app-server-rpc.ts:573-639 | responses, notifications, server requests and messages of the wrong shape |
| `RpcClient.CodexAppServerRpcClient.OnClose` | packages/adapters/src/codex-app-server-rpc.ts:547-555 | only the current socket's close rejects the pending requests |
| `RpcClient.CodexAppServerRpcClient.OnTimeout` | packages/adapters/src/codex-app-server-rpc.ts:672-675 | a timer that was not cleared rejects its request |
| `RpcClient.CodexAppServerRpcClient.Close` | packages/adapters/src/codex-app-server-rpc.ts:791-798 | closing rejects everything pending and destroys the socket |
| `RpcClient.RunAccounted` | packages/adapters/src/codex-app-server-rpc.ts:513-690 | in every run of events the issued requests are the settled and the pending ones, each exactly once, and exactly the pending ones have a timer |
| `RpcClient.AccountedMeans` | packages/adapters/src/codex-app-server-rpc.ts:565-690 | a request settles at most once and is pending exactly while issued and unsettled |
| `RpcClient.SettledOnce` | packages/adapters/src/codex-app-server-rpc.ts:565-690 | whatever else happens, once the timer of an issued request fires or the client is closed, the request is settled exactly once and not pending |
| `RpcClient.CloseSettlesAll` | packages/adapters/src/codex-app-server-rpc.ts:791-798 | closing after any run leaves nothing pending and no timer, and every request ever issued settled exactly once |
| `RpcClient.IdsAreFresh` | packages/adapters/src/codex-app-server-rpc.ts:661-663 | a request's id was never used before, on any connection |
| `RpcClient.LateResponseIgnored` | packages/adapters/src/codex-app-server-rpc.ts:578-582 | once a request is settled, a response with its id settles nothing in any later state (section 5 of JSON-RPC 2.0) |
| `RpcAnswers.ResultSettles` | packages/adapters/src/codex-app-server-rpc.ts:573-603 | in every reachable state with an open socket, a chunk that completes a line with a result for a pending request appends exactly that request's settlement with that result, takes out exactly that request and its timer, and leaves the others in order |
| `RpcAnswers.ErrorSettles` | packages/adapters/src/codex-app-server-rpc.ts:573-603 | the same for an error, with the kind its code means |
| `RpcAnswers.StrangerIgnored` | packages/adapters/src/codex-app-server-rpc.ts:573-582 | a response that names no pending request changes nothing |
| `RpcAnswers.OtherLines` | packages/adapters/src/codex-app-server-rpc.ts:513-639 | notifications are delivered, server requests answered, and what is no JSON or has the wrong shape rejects everything pending in order |
| `RpcAnswers.LineReachesHandler` | packages/adapters/src/codex-app-server-rpc.ts:513-542 | a chunk that completes a line hands exactly that line on and leaves an empty buffer |
| `RpcAnswers.SettlementsAreCaused` | packages/adapters/src/codex-app-server-rpc.ts:513-690 | every settlement of a run was caused by one of its events: a result by a received line that names the request and carries it, a rejection by such a line, a failed connection, a timer, a failed write or the end |
| `RpcAnswers.ResolvedByItsLine` | packages/adapters/src/codex-app-server-rpc.ts:596-603 | a request that was resolved was resolved with the result of a received line that names it |
| `RpcAnswers.RequestIsSent` | packages/adapters/src/codex-app-server-rpc.ts:641-690 | a request on an open connection gets the next id, its entry behind the others and a timer, or is rejected at once when its frame cannot be written |
| `RpcClient.CutsDoNotMatter` | packages/adapters/src/codex-app-server-rpc.ts:514-542 | while no chunk exceeds the limit, feeding a stream in any chunks does to the requests what handling its frames up to the first failing one does, and to everything if none fails |
| `RpcClient.SameStreamSameRequests` | packages/adapters/src/codex-app-server-rpc.ts:514-542 | two cuts of one stream settle the same requests in the same way, and leave the whole client alike if no frame fails the connection |
| `RpcCuts.CutShows` | packages/adapters/src/codex-app-server-rpc.ts:514-542 | a cut within the limit delivers and answers what the frames up to the first failing one do, and what came behind it in the same chunk before a line that is not JSON |
| `RpcCuts.AllCutsAgreeExactly` | packages/adapters/src/codex-app-server-rpc.ts:514-542 | all cuts within the limit deliver and answer the same exactly when nothing to deliver or answer fits into one buffer with the first failing message, behind it and before a line that is not JSON |
| `RpcCuts.FittingStreamExactly` | packages/adapters/src/codex-app-server-rpc.ts:514-542 | when the whole stream fits into the buffer: exactly when no notification and no answered server request lies there |
| `RpcCuts.CutShowsBehindFailure` | packages/adapters/src/codex-app-server-rpc.ts:514-542 | any message of the wrong shape with any notification behind it: delivered when both come in one chunk, not delivered when they come in two |
| `StopSequence.PollUntilDeadline` | packages/adapters/src/direct-process.ts:320-341 | stops at the first gone, otherwise not before its time is over, reports whether the process was ever alive, and observes at most as often as waits fit into the time, for any interval with which each wait advances the clock |
| `StopSequence.RunStopSequence` | packages/adapters/src/direct-process.ts:348-401 | what is observed and sent, phase by phase, and the verdict it leads to |
| `StopSequence.StoppedHasEvidence` | packages/adapters/src/direct-process.ts:348-401 | stopped is reported only after gone was observed last, following a delivered signal |
| `StopSequence.GoneIsReported` | packages/adapters/src/direct-process.ts:348-401 | gone observed after the start ends the sequence and is reported as stopped |
| `StopSequence.SignalsAtMostOnce` | packages/adapters/src/direct-process.ts:364-391 | SIGTERM and SIGKILL are each sent at most once |
| `StopSequence.KillNeedsAlive` | packages/adapters/src/direct-process.ts:378-391 | SIGKILL is sent only after a delivered SIGTERM, alive observed since, and gone never |
| `StopSequence.VerdictJustified` | packages/adapters/src/direct-process.ts:348-401 | each of the five verdicts is given exactly when the observed and sent events justify it, read off the events alone |
| `StopSequence.ObservationsBounded` | packages/adapters/src/direct-process.ts:320-401 | the number of events of the sequence is bounded by the waiting time divided by what each wait takes |

## Left out

- Numbers are exact reals: the rounding of a literal to a double, and that a number that rounds beyond the largest double
  is not finite, are modelled by one threshold; -0 is 0.
- Recursion depth: JavaScript's stack limit is not modelled.
- Schema decoding of the status (`exactRecord`, `literal`, `oneOf`): the validator starts from typed records. The date in
  a process start is only printable ASCII.
- The digest, freshness and origin helpers of the runtime status.
- SHA-256 and JSON.parse of a plan are function parameters; that the hash tells texts apart is assumed where it is used
  and said there.
- The schema's cap of three to six children is dropped; the planner is proved for any number.
- FanoutPlan.CreateFanoutPlan: does not model the scans for secrets, Git commands and conflict instructions in the texts
  (patterns and heuristics), nor the canonical JSON text and its hash: it is a function of the plan, so equal plans have
  equal texts.
- Board.KanbanStore.CreateTask: whether a verify directive is allowed is a parameter; drawing another id after a collision
  and events other than the authority are left out, as are SQLite and timestamps other than those compared.
- Dependency pairs are compared as pairs of ids, where the source joins them with `->`; task ids contain none.
- The meta JSON of a run is the one fact the gate reads from it.
- The heartbeat lifecycle is one transition system on values instead of classes, because its subject is the
  interleaving of processes. File modes, symbolic links, the log file and the heartbeat itself are not modelled; any process may end at any step, which covers every signal's effect. A failing `ps` is an exception.
- HeartbeatLifecycle.Safety: states nothing about runs with a step that unlinks a live process's lock or takes a killed
  process that lives for gone, because there the invariant fails (`InvExactly`).
- Reading JSONL rows, finding the log files, and the localeCompare order of the reported arrays: the tables are maps.
- Byte order marks, generation names with leading zeros, and failures of the append itself in the log.
- LogRotation.RetainedIsSuffix: assumes that prunes unlink the highest generations first as far as their calls succeed,
  because otherwise it is false (`RunSuffixExactly`).
- Callbacks of the JSON-RPC client that call back into it, UTF-8 decoding of chunks (cuts fall between characters), the
  endpoint checks (one truth value), `initialize` and its handshake.
- Fatal signal errors, which end the stop sequence with an exception.
- Message routing, HTTP retry, the Docker adapter, configuration, the command line, prices, metrics, transcripts and the web interface.
