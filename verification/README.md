# Orchestra: verified models of the compiler, the evidence log and the stateful services

This project models the parts of Orchestra where an error would be hard to see by reading one
function, and proves what each of them promises over all inputs or over every run.

**Trust compiler and plan-time binding** (`graphs`, `kahn`, `front_end`, `info_flow`, `gates`,
`compiler`, `registry`, `resolver`, `pipeline`). A task template becomes a graph of nodes with
explicit inputs; the graph is ordered with Kahn's algorithm, labelled by joining security labels
along edges, checked for approval gates, effects and purposes; capabilities are chosen by a scored,
policy-filtered router. Main results:

- ordering succeeds exactly on acyclic graphs and lists every node after its predecessors;
- the label of a node is the join of the labels of the sources that reach it, independently of the
  order used, and labels only rise along paths;
- gate coverage is exact reachability on any graph;
- the compiler accepts exactly the templates whose verdict, written on the template's own nodes and
  edges, is positive, and its errors are exactly the expected ones;
- a node that writes, deletes, pays or publishes and that no approval node reaches is reported and
  not compiled; reading and notifying alone never are;
- routing does not depend on registration order; it answers with the best allowed manifest, with the
  declared fallback only when policy denies every candidate, and otherwise fails with the reason of
  the last denial;
- a successful resolution is closed; no store, policy or query makes a policy-chosen binding
  escalate effects exactly when the specification the router finds declares no effect beyond the
  node's, which repeated node ids can violate; and such bindings contradict the flow checker exactly
  for PARTNER data at a public model.

**Merkle log** (`merkle`). For an arbitrary pair hash every honest proof verifies and has as many
steps as the log is high, which is the least exponent whose power of two covers the leaves. For an
injective pair hash a verified proof of that length binds the leaf its sides address, equal roots of
equally long logs mean equal leaves, and logs of equal height have equal roots if and only if every
path of that height leads to equal leaves in both.

**Rate limiter** (`token_bucket`). The lazily refilled bucket decides every request exactly as the
specification over all time windows would, and `retry_after` is exact for requests that fit the
capacity.

**Persistent protocols** (`approvals`, `approval_gates`, `approval_wakes`, `break_glass`, `deletion`,
`deletion_gates`, `deletion_overlap`, `deletion_adapters`, `lifecycle`). Every transaction is one atomic step, and a
call that spans several transactions, such as executing or retrying a deletion job, is several
steps; theorems quantify over all sequences of steps, that is over all interleavings of callers. A
deletion job may exceed its retry budget by as many attempts as calls of it overlapped, that bound is
attained, and beginning one more call is safe if and only if no other call of the job is in progress.
Whether a deletion is refused is decided from the holds placed and released and the last policy set,
and every row of the approval, break-glass and deletion tables is traced to the call that inserted it.

**In-memory services** (`event_bus`, `publishing`, `outbox`). Each object carries its history of
calls or a functional account of its state; derived data (replay buffers, latest pointers, partner
index, delivered flags) is proved to agree with that history. What a subscriber of the event bus
receives is stated on the calls alone.

Objects whose methods update fields are classes; their methods are proved against functions on
values, and the whole-run theorems are lemmas about those functions.

## Where the code and its documentation differ

The models follow the code. Each difference below is stated as a lemma.

- `can_flow_to` is not transitive: a hop through a `local` residency joins two specific ones
  (`InfoFlow.FlowComposition`, `InfoFlow.FlowIsNotTransitive`).
- The scoring comment says a free capability still wins over the in-tenant bonus; it does exactly
  when the in-tenant one costs more than 0.05 (`Registry.FreeBeatsBonus`).
- The comment in the policy engine says that a rule that raises is skipped; it denies the request
  (`Registry.FirstMatchDecides`).
- The router is documented to fall back only to a manifest of the original eligible set; it falls back
  to any registered manifest the node declares (`Registry.AnswerIsUnique`). The resolver does not ask it
  when nothing is eligible at all, so that node stays unbound whatever it declares
  (`Resolver.BindingMeans`).
- The default policy has no rule for PARTNER data, the flow checker has
  (`Resolver.PolicyBindingLeaksOnlyPartner`, `Resolver.PartnerDisagreement`).
- The compiler keeps the last specification of a repeated node id, the router finds the first. A
  policy-chosen binding can then escalate effects (`Pipeline.RepeatedIdEscalates`); it cannot exactly
  when the routed effects are among the node's (`Resolver.NeverEscalatesIff`).
- Amending a resolution does not avoid the unavailable capability: the amended bindings use it
  exactly when some node still resolves to it (`Resolver.Amend`).
- Appending an event does not always give a new root: it keeps the old one exactly when the log
  already ends in a block of that leaf which the padding repeats (`Merkle.AppendKeepsRoot`).
- `retry_after` is a finite delay even for requests larger than the capacity, which are never
  permitted (`RateLimit.RetryIsExact`).
- The engine is woken by every applied decision, so with two required approvers it wakes on the
  first approval (`Approvals.WakeMayPrecedeCompletion`); with more than two no number of approvals
  completes a row (`Approvals.OtherCountsNeverApprove`).
- The comment that a process whose decision was refused will see the other decision holds only if that
  one was applied in the same process: a handle is woken through the store exactly by decisions applied
  in its own process (`ApprovalWakes.WokenIffAppliedHere`), and a process waiting on a row that another
  one closed sleeps until its handle is replaced (`ApprovalWakes.StrandedStays`,
  `ApprovalWakes.OtherProcessIsNotWoken`).
- The two break-glass approvers are distinct unless both gave an empty identity
  (`BreakGlass.ActiveWasApprovedTwice`, `BreakGlass.EmptyIdentityApprovesTwice`).
- A legal hold that lists no resource blocks no deletion (`Lifecycle.TenantWideHoldBlocksNothing`).
- Looking up a card without a version is documented to return the latest published one. It returns a
  published card exactly when the pointed version was never deprecated (`Publishing.LatestLookup`);
  revoking the pointed version promotes the oldest remaining published one, which is the newest exactly
  when one remains (`Publishing.RevokePromotesOldest`, `Publishing.RevokeSkipsNewer`); and a plain
  publish never moves an existing pointer (`Publishing.PublishKeepsPointer`).
- A card is documented to move only forward through its states, but a deprecate call applied after a
  revoke turns a revoked card into a deprecated one: the last applied call decides the status
  (`Publishing.StatusIsLastCall`).
- Closing a task is meant to let every subscriber see the sentinel. A registered subscriber gets it
  exactly when its queue had room at the close (`EventBus.SentinelIffRoom`), and one that arrives later
  exactly when its replay leaves room (`EventBus.LateSentinelIffRoom`).
- The lock taken when a gate is created is meant to stop a racing insert, but it locks no row when the
  gate has none: two racing creations leave two pending rows that take opposite decisions
  (`ApprovalGates.RacingCreationsDecideTwice`); a gate has one row exactly when no call missed an
  existing one (`ApprovalGates.OneRowIffNoneMissed`).
- Overlapping executions of a deletion job exceed its retry budget (`DeletionOverlap.OvershootIsAttained`)
  and can bring a deleted job back (`DeletionOverlap.DeletedJobReturns`).
- The dispatcher's attempt limit changes nothing (`OutboxDispatch.Dispatcher.FlushOutbox`).
- On a parse failure the compiler's handler names an enumeration it does not import, so the call
  raises; the model has an outcome `Raised` for it (`Compiler.Compile`).

## Model

| member | source | states |
|---|---|---|
| Graphs.TopologicalIsAcyclic | orchestra/compiler/normalizer.py:49-69 | a graph with a topological order has no directed cycle |
| Graphs.NoSourceMeansCycle | orchestra/compiler/normalizer.py:67-68 | a nonempty set in which every node has a predecessor inside it contains a cycle |
| Graphs.ClosedKeepsPaths | orchestra/compiler/type_checker.py:45-52 | what is reachable from inside a successor-closed set stays inside it |
| Kahn.PendingEmit | orchestra/compiler/normalizer.py:62-64 | emitting a node lowers each in-degree by exactly its parallel edges |
| Kahn.PendingZero | orchestra/compiler/normalizer.py:65-66 | an in-degree is zero iff all predecessors were emitted |
| Kahn.StuckMeansCycle | orchestra/compiler/normalizer.py:67-68 | if the queue runs dry early, the remaining nodes hold a cycle |
| Kahn.Release | orchestra/compiler/normalizer.py:60-66 | one turn keeps the counts exact and queues exactly the newly ready nodes, once each |
| Kahn.TopologicalOrder | orchestra/compiler/normalizer.py:49-69 | succeeds iff the graph is acyclic, and then lists every node once with sources before targets; duplicate edges and self-loops included |
| FrontEnd.DictionaryShape | orchestra/compiler/parser.py:106-121 | the node dictionary has each id once, at its first occurrence, with its last specification |
| FrontEnd.DistinctIdsKeepEveryNode | orchestra/compiler/parser.py:106-121 | with distinct ids the dictionary is the template's node list |
| FrontEnd.LastSpecWins | orchestra/compiler/parser.py:106-121 | of several specifications of one id the last is kept |
| FrontEnd.IdsInFirstOrder | orchestra/compiler/parser.py:106-121 | the ids of the dictionary are those of the template, in the order of their first occurrence |
| FrontEnd.Parse | orchestra/compiler/parser.py:87-156 | accepts exactly templates with allowed purposes, known endpoints and no cycle, reports the first failing check, and keeps nodes and edges |
| FrontEnd.DedupKeepsEdges | orchestra/compiler/normalizer.py:74-82 | merging duplicates leaves each edge once and keeps the arcs, hence reachability and acyclicity |
| FrontEnd.DedupKeepsOrder | orchestra/compiler/normalizer.py:74-82 | merged edges stand in the order of their first occurrence |
| FrontEnd.ProducersArePredecessors | orchestra/compiler/normalizer.py:85-97 | the input references of a node name exactly its predecessors |
| FrontEnd.RefsFollowEdges | orchestra/compiler/normalizer.py:85-97 | the k-th input of a node names the producer of its k-th incoming edge and the first view that producer declares, or no view if it declares none |
| FrontEnd.NormalizedIsWellFormed | orchestra/compiler/normalizer.py:99-113 | the normalized graph has the template's arcs, known endpoints and matching inputs |
| FrontEnd.MergeDuplicates | orchestra/compiler/normalizer.py:74-82 | the `seen` loop keeps first occurrences in order |
| FrontEnd.InputRefs | orchestra/compiler/normalizer.py:85-97 | the reference loop collects, per node, one reference per incoming edge |
| FrontEnd.Normalize | orchestra/compiler/normalizer.py:73-113 | builds that graph from a candidate graph |
| InfoFlow.JoinLaws | orchestra/compiler/info_flow.py:54-66 | the join is associative, commutative and, up to the owner, idempotent; its owner is the default one |
| InfoFlow.BelowMeans | orchestra/compiler/info_flow.py:54-66 | being absorbed by a label, field by field |
| InfoFlow.JoinIsLeast | orchestra/compiler/info_flow.py:54-66 | the join is the least label that absorbs both operands |
| InfoFlow.BelowMayFlow | orchestra/core/schema.py:81-105 | data absorbed by a label may flow to it |
| InfoFlow.FlowByTiers | orchestra/core/schema.py:81-105 | the flow check and the order behind the join, spelled out tier by tier |
| InfoFlow.FlowComposition | orchestra/core/schema.py:81-105 | two permitted flows compose unless a local hop joins two different specific residencies |
| InfoFlow.FlowIsNotTransitive | orchestra/core/schema.py:81-105 | three labels for which they do not |
| InfoFlow.SourceJoinUnique | orchestra/compiler/info_flow.py:91-104 | the label of a node is determined up to the owner, whatever order computed it |
| InfoFlow.LabelsRise | orchestra/compiler/info_flow.py:91-104 | along every path labels only rise, and each may flow to the later one |
| InfoFlow.JoinAll | orchestra/compiler/info_flow.py:101-104 | the fold over input labels is their join |
| InfoFlow.Propagate | orchestra/compiler/info_flow.py:91-104 | for any labelling of the sources, each node gets the join over the sources that reach it; no producer is dropped |
| InfoFlow.OneInitialLabel | orchestra/compiler/info_flow.py:98-99 | with one initial label every node carries it, up to the owner |
| InfoFlow.ClassificationErrors | orchestra/compiler/info_flow.py:109-133 | flags exactly the non-exempt public-model nodes with data above PUBLIC |
| InfoFlow.TrustErrors | orchestra/compiler/info_flow.py:139-162 | flags exactly the non-exempt public-model consumers of RESTRICTED-trust producers |
| InfoFlow.Check | orchestra/compiler/info_flow.py:84-163 | raises iff the graph is cyclic; otherwise the errors are exactly those that follow from the initial label, the bindings and the arcs |
| Gates.Covered | orchestra/compiler/type_checker.py:43-52 | the worklist terminates on every graph and computes exactly the nodes reachable from the gate |
| Gates.GateMap | orchestra/compiler/type_checker.py:39-53 | a node is in some gate's cover iff an approval node reaches it |
| Gates.HighRiskMeans | orchestra/compiler/type_checker.py:29-29 | high risk means declaring a write, delete, payment or publish effect, that is any effect other than read and notify |
| Gates.UngatedMeans | orchestra/compiler/type_checker.py:55-79 | a node violates the approval rule iff it declares such an effect and no node that requires approval reaches it |
| Gates.TypeCheck | orchestra/compiler/type_checker.py:31-80 | flags a node, once, iff it declares an effect other than read and notify and no approval node reaches it |
| Gates.EffectCheck | orchestra/compiler/effect_checker.py:27-86 | flags, once each, exactly the effect escalations at nodes bound to a known manifest, and those of them with an effect other than read and notify that no approval node reaches |
| Gates.ApprovalRuleTwice | orchestra/compiler/effect_checker.py:71-84 | taken together, the outputs of the two checkers report an ungated high-risk node once, or twice if it is bound to a known manifest; on a graph the type checker passes, the effect checker reports only escalations |
| Gates.GateStandsBefore | orchestra/compiler/type_checker.py:10-14 | a covering gate is the node itself or strictly earlier in every topological order |
| Compiler.DelegationCheck | orchestra/compiler/delegation_checker.py:22-42 | flags exactly the nodes whose purpose differs from the task's |
| Compiler.GraphShape | orchestra/compiler/trust_compiler.py:78-78 | the compiled graph has the template's arcs and nodes |
| Compiler.SameGates | orchestra/compiler/trust_compiler.py:78-80 | gate coverage in the normalized graph is coverage along the template's edges |
| Compiler.ExpectedAtNode | orchestra/compiler/trust_compiler.py:79-88 | each kind of error at a node, read off the template |
| Compiler.NoErrorAtNode | orchestra/compiler/trust_compiler.py:79-91 | a node is free of errors iff it satisfies the template-level verdict |
| Compiler.AcceptedMeansNoError | orchestra/compiler/trust_compiler.py:89-91 | the verdict is positive iff no error is expected anywhere |
| Compiler.NodeVerdict | orchestra/compiler/trust_compiler.py:79-91 | the verdict at a node, spelled out in terms of the template, the bindings and the manifests alone |
| Compiler.UnapprovedIsReported | orchestra/compiler/type_checker.py:55-79 | a node with an effect other than read and notify that no approval node reaches is reported, and the template rejected; no other node is reported for that |
| Compiler.VerdictMeans | orchestra/compiler/trust_compiler.py:60-91 | a template is accepted iff it parses and every node passes that spelled-out verdict |
| Compiler.Compile | orchestra/compiler/trust_compiler.py:60-91 | ok iff the template parses and every node passes the spelled-out verdict; raises iff parsing fails; otherwise the errors are exactly the expected ones, the nodes that lack an approval are exactly those reported for it, once or twice as above, and the graph is returned only when ok |
| Registry.LookupIsTheOne | orchestra/registry/manifest_store.py:29-33 | with unique ids lookup returns the registered manifest |
| Registry.RegisterKeepsIdsUnique | orchestra/registry/manifest_store.py:22-27 | registration succeeds iff the id is free, keeps ids unique and adds exactly the manifest |
| Prelude.StrTotal | orchestra/registry/eligible.py:118-118 | string order is total and irreflexive |
| Prelude.StrLessAtFirstDifference | orchestra/registry/eligible.py:118-118 | one string is smaller iff at the first difference it ends or has the smaller code point |
| Registry.ScoreIsMonotone | orchestra/registry/eligible.py:58-79 | within a kind, cheaper and faster never scores lower |
| Registry.FreeBeatsBonus | orchestra/registry/eligible.py:58-79 | a free capability outscores an in-tenant one of equal latency iff that one costs more than the bonus |
| Registry.ScoreTradeOff | orchestra/registry/eligible.py:58-79 | within a kind a dollar weighs as much as five seconds; beyond one dollar and five seconds neither counts any more |
| Registry.InTenantBonus | orchestra/registry/eligible.py:75-78 | an in-tenant kind is worth five cents |
| Registry.SortedIsRanked | orchestra/registry/eligible.py:118-118 | sorting ranks the entries strictly by score, then id, and keeps them all |
| Registry.RankingUnique | orchestra/registry/eligible.py:118-118 | a set of entries has only one ranking |
| Registry.EligibleSet | orchestra/registry/eligible.py:82-119 | raises iff the node declares no kinds, otherwise returns the ranked eligible entries |
| Registry.EligibleEntriesAre | orchestra/registry/eligible.py:95-119 | the entries are exactly the eligible manifests, best first |
| Registry.WhyNotCandidate | orchestra/registry/eligible.py:95-107 | a registered manifest is not a candidate iff its kind is not accepted, it adds an effect, or it is the fallback of a node that accepts several kinds |
| Registry.Decide | orchestra/registry/policy.py:97-123 | the first rule that does not skip the request decides; a raising rule denies; no rule means deny |
| Registry.FirstMatchDecides | orchestra/registry/policy.py:97-123 | the first rule that does not skip decides, by its own decision if it matches and by a denial if it raises; without one the request is denied by default |
| Registry.AllowedByMatch | orchestra/registry/policy.py:97-123 | a request is allowed iff some rule that allows matches it and every earlier rule skips it |
| Registry.AppendedRuleIsLast | orchestra/registry/policy.py:90-95 | an added rule decides only requests that fell to the default |
| Registry.DefaultRulesAllow | orchestra/registry/policy.py:158-245 | the default bundle allows exactly the requests meeting the six conditions of `DefaultAllows` |
| Registry.Route | orchestra/registry/router.py:55-133 | raises iff the node declares no kinds; otherwise its answer is the best allowed manifest, or the declared fallback if it is registered and policy denies every candidate, or a failure, each with the reason of the deciding or the last denied candidate |
| Registry.RoutingCanonical | orchestra/registry/router.py:75-133 | any permutation of the registered manifests routes alike |
| Registry.PickIsBest | orchestra/registry/router.py:78-101 | outside the fallback the pick is eligible, allowed and ranks before every other allowed manifest |
| Registry.RejectedRankAbove | orchestra/registry/router.py:95-102 | the rejected ids are exactly those of eligible manifests ranked above the pick |
| Registry.FallbackOnlyWhenAllDenied | orchestra/registry/router.py:104-119 | nothing is picked iff policy denies every eligible manifest |
| Registry.AnswerIsUnique | orchestra/registry/router.py:75-133 | the router gives an answer iff it is the one owed: the best allowed manifest, else the declared registered fallback, else the failure with the last denial's reason |
| Registry.RejectedWithReason | orchestra/registry/router.py:95-133 | a rejected manifest was eligible and denied, and is listed with the reason of its own denial; if nothing was picked all eligible ones are |
| Resolver.BindNode | orchestra/compiler/resolver.py:91-160 | one node's binding and eligible entries, or the reason its turn raises |
| Resolver.BindingMeans | orchestra/compiler/resolver.py:123-159 | a routed node is bound iff some manifest serves it, and to that one: something is eligible, and it is the best one policy allows or, if policy denies them all, the declared registered fallback |
| Resolver.DeniedOnlyAsFallback | orchestra/compiler/resolver.py:137-159 | a node is bound to a manifest that is not eligible or that policy denies only if it is the declared fallback of the routed specification and policy denies everything eligible |
| Resolver.Resolve | orchestra/compiler/resolver.py:74-168 | raises iff the graph is cyclic, a node is missing from the template or declares no kinds; otherwise human nodes get the synthesised approver, every other node exactly the manifest that serves its specification, nodes without one an error, and fallback marks are set iff the binding is the node's own fallback |
| Resolver.ResolutionIsUnique | orchestra/compiler/resolver.py:74-168 | setting and graph determine the bindings |
| Resolver.ClosureCheck | orchestra/compiler/binding_closure.py:54-129 | reports exactly the expected errors, and is ok iff every node is bound to the synthesised approver or to a registered capability with its current snapshot and every edge endpoint is bound |
| Resolver.BindingIsRegistered | orchestra/compiler/resolver.py:137-148 | a routed binding names a registered manifest and its snapshot |
| Resolver.ResolutionIsClosed | orchestra/compiler/binding_closure.py:54-129 | over one store, a successful resolution passes the closure check |
| Resolver.SpecsAgree | orchestra/compiler/resolver.py:107-121 | without a template, or with the distinct-id template it came from, the router checks the node's own specification |
| Resolver.PolicyBindingEscalation | orchestra/compiler/effect_checker.py:54-69 | under any policy a binding chosen by an allow raises an escalation error iff the chosen manifest escalates, which takes a routed specification with an effect the node lacks |
| Resolver.NeverEscalatesIff | orchestra/compiler/resolver.py:105-121 | no store, policy or query makes a policy-chosen binding of a node escalate iff every effect of the specification the router finds is one of the node's; otherwise the default policy already does |
| Resolver.PolicyBindingLeaksOnlyPartner | orchestra/compiler/info_flow.py:109-133 | under the default policy such a binding raises a restricted-to-public error iff the data is PARTNER, the manifest is a public model and the node is not exempt |
| Resolver.PartnerDisagreement | orchestra/registry/policy.py:164-192 | a family of stores and nodes on which resolver and flow checker do disagree |
| Resolver.Amend | orchestra/compiler/resolver.py:170-200 | returns the previous result if the capability is not bound; otherwise returns iff resolution does, with the new binding of every node that has one and the unaffected old ones elsewhere, with snapshots that follow the bindings and the candidates and errors of the new resolution, still using the unavailable capability iff some node resolves to it, hence never if it is neither registered nor the human approver; in the same setting nothing changes |
| Pipeline.ResolvedTemplateCompiles | orchestra/compiler/trust_compiler.py:60-91 | a template resolved by policy compiles iff at every node gates, purpose and trust inheritance hold, no PARTNER data reaches a public model, no manifest found through a repeated id escalates, and a manifest registered under the id of the human approver is harmless at human nodes |
| Pipeline.UnregisteredApproverIsFree | orchestra/compiler/resolver.py:91-95 | without such a manifest the last condition is void |
| Pipeline.DistinctIdsNeverExceed | orchestra/compiler/resolver.py:107-109 | with distinct node ids the condition on repeated ids is void |
| Pipeline.RepeatedIdEscalates | orchestra/compiler/parser.py:106-121 | a template with a repeated id that resolves by policy and is rejected for escalation |
| Merkle.HeightIsLeast | orchestra/evidence/merkle.py:63-87 | the number of proof steps is the least exponent whose power of two covers the leaves |
| Merkle.ProofLength | orchestra/evidence/merkle.py:70-87 | an honest proof has exactly that many siblings and positions |
| Merkle.RootIsTree | orchestra/evidence/merkle.py:96-109 | the root built layer by layer is that of the full binary tree over the leaves its paths address through the padding |
| Merkle.PathFolds | orchestra/evidence/merkle.py:63-120 | folding the honest siblings gives the root, for every leaf |
| Merkle.SidesAddress | orchestra/evidence/merkle.py:70-78 | the honest positions lead back to their own leaf |
| Merkle.FoldBinds | orchestra/evidence/merkle.py:112-120 | a path of tree height that folds to the root starts at the leaf its sides address, through the padding |
| Merkle.VerifiedProofBinds | orchestra/evidence/merkle.py:63-120 | a verifying proof of tree height proves the addressed leaf |
| Merkle.RootBindsLog | orchestra/evidence/merkle.py:96-109 | equal roots of equally long logs mean equal leaves |
| Merkle.RootsAgreeIff | orchestra/evidence/merkle.py:96-109 | logs of equal height, whatever their lengths, have equal roots iff every path of that height leads to equal leaves in both |
| Merkle.EqualRootsShareLeaves | orchestra/evidence/merkle.py:96-120 | so each leaf of one is the leaf of the other that its own honest sides address |
| Merkle.TailSizeDivides | orchestra/evidence/merkle.py:101-108 | the repeated block length is the largest power of two dividing the log length |
| Merkle.AppendKeepsRoot | orchestra/evidence/merkle.py:59-61 | appending keeps the root iff the log already ends in a padded block of that leaf |
| Merkle.MerkleLog.ComputeRoot | orchestra/evidence/merkle.py:96-109 | the layer loop computes the root, a fixed value for the empty log |
| Merkle.MerkleLog.Append | orchestra/evidence/merkle.py:59-61 | adds one leaf and returns the new root |
| Merkle.MerkleLog.InclusionProof | orchestra/evidence/merkle.py:63-94 | fails iff the index is out of range, otherwise returns the honest proof; its layer loop agrees with the root builder's |
| Merkle.MerkleLog.HonestProofVerifies | orchestra/evidence/merkle.py:63-120 | every proof handed out verifies, has tree height and addresses its own leaf |
| Merkle.VerifyInclusionProof | orchestra/evidence/merkle.py:112-120 | true iff the siblings, paired with their sides, fold to the declared root |
| RateLimit.AdmittedStaysInEnvelope | orchestra/runtime/rate_limit.py:80-114 | no window of an admitted history grants more than capacity plus refill over the window |
| RateLimit.ExactDecides | orchestra/runtime/rate_limit.py:108-110 | comparing the token count decides what all windows decide |
| RateLimit.RefillKeepsExact | orchestra/runtime/rate_limit.py:102-107 | clamped lazy refill keeps the count equal to the tightest window's slack |
| RateLimit.GrantKeepsExact | orchestra/runtime/rate_limit.py:108-110 | so does taking tokens |
| RateLimit.RetryIsExact | orchestra/runtime/rate_limit.py:111-114 | with nothing granted in between, a denied request is permitted from exactly the reported delay on, if it fits the capacity, and never otherwise |
| RateLimit.TokenBucket.TryAcquire | orchestra/runtime/rate_limit.py:80-114 | allows a request iff every window permits it; a denial reports the deficit over the rate as delay; misconfigured limiters deny, non-positive requests pass untouched |
| RateLimit.RateLimiter.BucketFor | orchestra/runtime/rate_limit.py:190-199 | one bucket per key, created full on first use |
| RateLimit.RateLimiter.Check | orchestra/runtime/rate_limit.py:173-188 | a tenant's request is decided by that tenant's history alone, in each of the three cases of its bucket, and changes no other's |
| Approvals.DecisionKeepsRow | orchestra/coordinator/event_store.py:678-728 | one applied decision keeps state, version, payload and log of a row in agreement |
| Approvals.RecordKeepsRows | orchestra/coordinator/event_store.py:631-736 | the compare-and-set keeps all rows in agreement and appends exactly the applied decision |
| Approvals.DecisionRefusals | orchestra/coordinator/event_store.py:665-676 | which decisions are refused and why, and that a refused one changes nothing |
| Approvals.DecisionEffect | orchestra/coordinator/event_store.py:678-736 | what an applied decision makes of its row, its log and the reply |
| Approvals.CreateKeepsRows | orchestra/coordinator/event_store.py:557-629 | registering a gate changes no existing row |
| Approvals.CreatedRow | orchestra/coordinator/event_store.py:588-610 | a gate without a row gets one with the call's gate, tenant and count, pending, at version 0, without payload or decisions |
| Approvals.CreatedRowKeeps | orchestra/coordinator/event_store.py:588-610 | whatever follows, that row keeps the gate, the tenant and the count of the call |
| Approvals.StepKeepsInv | orchestra/coordinator/engine.py:410-483 | every step of every process keeps rows, logs and wake-ups in agreement, and only extends logs of open rows |
| Approvals.RunKeepsInv | orchestra/coordinator/event_store.py:631-736 | so on every interleaving version equals the number of decisions, numbered from 1 |
| Approvals.TerminalRowsNeverChange | orchestra/coordinator/event_store.py:671-672 | terminal rows and their logs never change again, whatever follows |
| Approvals.OneApproverOneDecision | orchestra/coordinator/engine.py:429-463 | with one approver at most one decision is applied, and every persistent wake-up carries it |
| Approvals.TwoApprovers | orchestra/coordinator/event_store.py:701-713 | a gate created for two approvers: pending iff undecided, first-approved iff approved once, approved iff exactly two approvals, rejected iff the last decision is the only rejection |
| Approvals.ApprovalsOfTwo | orchestra/coordinator/event_store.py:701-713 | the first approval of such a gate is answered with first-approved, the second with approved |
| Approvals.OtherCountsNeverApprove | orchestra/coordinator/event_store.py:701-713 | with any other number the row never becomes approved |
| Approvals.WakeMayPrecedeCompletion | orchestra/coordinator/engine.py:444-463 | a wake-up leaves the row open iff it was an approval that does not complete it |
| Approvals.RestartReattaches | orchestra/coordinator/engine.py:892-929 | after a restart a gate has a handle iff one of its rows is pending, and it waits on such a row |
| Approvals.RestartHandles | orchestra/coordinator/engine.py:892-929 | a process without a tenant restarts with no handles; one with a tenant has exactly those of its pending rows; rows and other processes stay |
| ApprovalGates.OneRowIffNoneMissed | orchestra/coordinator/event_store.py:566-615 | on every interleaving a gate has at most one row iff no call inserted one while the gate had one |
| ApprovalGates.RowKeepsOrigin | orchestra/coordinator/event_store.py:588-610 | on every interleaving a row keeps the gate, the tenant and the count of the step that inserted it: one approver unless a creation call said otherwise, no tenant on the legacy path |
| ApprovalGates.RowHasOrigin | orchestra/coordinator/event_store.py:588-610 | and it is a row of the gate iff some step inserted it for that gate |
| ApprovalGates.OneDecisionPerGate | orchestra/coordinator/event_store.py:631-736 | such a gate of one approver takes at most one decision through all its rows, and every persistent wake-up carries it |
| ApprovalGates.RacingCreationsDecideTwice | orchestra/coordinator/event_store.py:575-590 | two creations that miss each other leave two pending rows, which take opposite decisions |
| ApprovalWakes.WokenIffAppliedHere | orchestra/coordinator/engine.py:429-463 | on every interleaving a handle is woken through the store iff a decision was applied in its own process since it was installed |
| ApprovalWakes.StrandedStays | orchestra/coordinator/engine.py:452-456 | a handle asleep on a closed row stays asleep until it is replaced |
| ApprovalWakes.OtherProcessIsNotWoken | orchestra/coordinator/engine.py:452-456 | a run in which the decision of one process leaves another, waiting on the same row, asleep |
| ApprovalWakes.WaitInstalls | orchestra/coordinator/engine.py:845-870 | a new wait installs a sleeping handle, on a row of its gate iff the process has a tenant and the call found or inserted one |
| ApprovalWakes.LegacyDecisionWakes | orchestra/coordinator/engine.py:465-483 | a decision without a row or tenant wakes the handle whatever it says, as an approval iff it says approve |
| ApprovalWakes.OnlyItsTenantDecides | orchestra/coordinator/event_store.py:673-674 | only decisions made in the name of its tenant extend the log of a row |
| Approvals.ApprovalStore.RecordApprovalDecision | orchestra/coordinator/event_store.py:631-736 | one transaction is one atomic decision, with its refusal reasons |
| Approvals.ApprovalStore.Create | orchestra/coordinator/event_store.py:557-629 | returns an existing row of the gate and changes nothing, or inserts a pending one with the call's tenant and count and an empty log |
| BreakGlass.ClampIsLongestAllowed | orchestra/enterprise/break_glass.py:120-133 | the window is the longest that respects the request, the tenant and the hard cap, or the default without either, but at least one second |
| BreakGlass.ClampIsBounded | orchestra/enterprise/break_glass.py:120-133 | the window is never longer than four hours, and a quarter of an hour by default |
| BreakGlass.CeilingForbids | orchestra/enterprise/break_glass.py:69-117 | the ceiling forbids exactly disabling egress enforcement, moving a label to a less sensitive tier, and public egress on RESTRICTED data |
| BreakGlass.CeilingIsMonotone | orchestra/enterprise/break_glass.py:69-117 | what is allowed stays allowed on less sensitive resources; on RESTRICTED data it lowers no label and opens no public egress |
| BreakGlass.StepKeepsSafe | orchestra/coordinator/event_store.py:839-968 | every call keeps all rows safe and each changed row strictly rises in rank |
| BreakGlass.RunIsSafe | orchestra/enterprise/break_glass.py:146-355 | every reachable table is safe |
| BreakGlass.ActiveWasApprovedTwice | orchestra/coordinator/event_store.py:863-911 | active or expired requests had two approvers other than the applicant, distinct unless both are empty, and run for exactly their bounded window |
| BreakGlass.EmptyIdentityApprovesTwice | orchestra/coordinator/event_store.py:871-872 | the empty identity can approve twice |
| BreakGlass.AtMostThreeChanges | orchestra/coordinator/event_store.py:839-968 | a request changes at most three times after it was made |
| BreakGlass.AppliedMeansChanged | orchestra/coordinator/event_store.py:839-951 | a call is reported applied iff it changed the table |
| BreakGlass.TerminalStaysTerminal | orchestra/coordinator/event_store.py:938-939 | expired and revoked requests never change again |
| BreakGlass.SweepLeavesNothingOverdue | orchestra/coordinator/event_store.py:953-968 | after a sweep nothing active is overdue, overdue rows are expired and nothing else changed |
| BreakGlass.RowIsAsRequested | orchestra/enterprise/break_glass.py:200-214 | on every run a row keeps the tenant, effect and applicant of its request and the window that request was allowed |
| BreakGlass.RowHasRequest | orchestra/enterprise/break_glass.py:174-214 | and every row was made by an acceptable request |
| BreakGlass.ApprovalReplies | orchestra/coordinator/event_store.py:863-911 | each reply to an approval with its reason, and what an applied one changes |
| BreakGlass.RevocationReplies | orchestra/coordinator/event_store.py:934-951 | each reply to a revocation, and what an applied one changes |
| BreakGlass.OtherTenantsChangeNothing | orchestra/coordinator/event_store.py:865-866 | only calls in the name of its tenant, and the sweep of an overdue one, change a request |
| BreakGlass.BreakGlassService.RequestAccess | orchestra/enterprise/break_glass.py:146-232 | stores a request iff no field is missing, the effect is under the ceiling and the id is free; a refused one changes nothing |
| BreakGlass.BreakGlassService.Approve | orchestra/coordinator/event_store.py:839-911 | first and second approval with their refusal reasons |
| BreakGlass.BreakGlassService.Revoke | orchestra/coordinator/event_store.py:913-951 | revokes any open request of the tenant |
| BreakGlass.BreakGlassService.SweepExpired | orchestra/coordinator/event_store.py:953-968 | expires and returns exactly the overdue requests |
| Deletion.SettledIsConsistent | orchestra/enterprise/lifecycle.py:520-535 | an adapter outcome keeps attempts, state and evidence of the row consistent, whatever happened to the row since it was read |
| Deletion.StepKeepsSound | orchestra/enterprise/lifecycle.py:493-646 | every transaction of every call keeps all jobs consistent and one job per resource |
| Deletion.RunIsSound | orchestra/enterprise/lifecycle.py:493-646 | so does every interleaving |
| Deletion.OneJobPerResource | orchestra/coordinator/event_store.py:1148-1186 | on every interleaving two jobs never share a resource |
| Deletion.StepKeepsBounded | orchestra/enterprise/lifecycle.py:503-535 | every transaction keeps attempts plus calls in progress within the budget plus the overlapping calls |
| Deletion.OvershootIsBounded | orchestra/enterprise/lifecycle.py:604-629 | on every interleaving attempts are the raised adapter runs and exceed the budget by at most the number of overlapping calls; failed means the budget is used up, deleted means no copy is kept |
| Deletion.BudgetAndEvidence | orchestra/enterprise/lifecycle.py:604-629 | without overlapping calls attempts never exceed the budget and reach it iff the job failed, deleted holds iff the evidence keeps no copy, and a failed job is never retried |
| Deletion.ClosedJobsRest | orchestra/enterprise/lifecycle.py:506-508 | without overlapping calls a deleted or failed job never changes and never runs its adapter again |
| DeletionGates.PolicyFollowsCalls | orchestra/coordinator/event_store.py:972-1001 | on every run the policy in force is the one last set for the tenant and kind |
| DeletionGates.HoldFollowsCalls | orchestra/coordinator/event_store.py:1003-1061 | on every run a hold stays as it was placed until its own tenant releases it |
| DeletionGates.HeldFollowsCalls | orchestra/coordinator/event_store.py:1125-1146 | a resource is held iff some hold of its tenant that lists it was placed and never released |
| DeletionGates.GatesFollowCalls | orchestra/enterprise/lifecycle.py:429-475 | on every run a foreign caller is refused before anything else, then a held resource, then one whose last policy keeps it unless the call forces the deletion; nothing else is refused |
| DeletionGates.DeleteCall | orchestra/enterprise/lifecycle.py:429-491 | a refused call changes nothing; any other adds one pending job with three attempts iff the resource has none and the id is free |
| DeletionGates.JobHasOrigin | orchestra/coordinator/event_store.py:1148-1186 | on every run a job has the resource and the limit of attempts some call asked for |
| DeletionOverlap.BeginIsSafeIffAlone | orchestra/enterprise/lifecycle.py:503-579 | after a run without overlaps, a further call keeps these promises, whatever the calls in progress do, iff no other call of the job is in progress |
| DeletionOverlap.TwoCallsBreak | orchestra/enterprise/lifecycle.py:515-519 | with two calls in progress on an open job one can delete the resource and the other take the job back to running |
| DeletionOverlap.OvershootIsAttained | orchestra/enterprise/lifecycle.py:604-629 | for every number of overlaps some run exceeds the budget by exactly that many attempts |
| DeletionOverlap.DeletedJobReturns | orchestra/enterprise/lifecycle.py:520-535 | a run in which a slower failing execution turns a deleted job into a failed one with a copy kept |
| DeletionAdapters.DeleteArtifact | orchestra/enterprise/lifecycle.py:782-835 | one copy deleted at most; a missing store, a refusal and each error keep a copy |
| DeletionAdapters.DeleteReceipt | orchestra/enterprise/lifecycle.py:838-910 | raises iff the lookup does; every failed redaction keeps a copy, even of a deleted receipt |
| DeletionAdapters.RunDeleter | orchestra/enterprise/lifecycle.py:594-602 | dispatches to the adapter of the resource kind |
| DeletionAdapters.AnswerReflectsServices | orchestra/enterprise/lifecycle.py:782-1052 | a copy counts as deleted iff the service that holds the resource confirmed it, and none is kept iff no other service raised either |
| DeletionAdapters.AdapterAnswers | orchestra/enterprise/lifecycle.py:782-1052 | exactly which evidence each adapter can give over all answers of its services, and that only the receipt adapter can raise |
| DeletionAdapters.OnlyReceiptsFail | orchestra/enterprise/lifecycle.py:782-1052 | with these adapters only receipt jobs use up attempts or fail, on every interleaving |
| DeletionAdapters.EvidenceIsBacked | orchestra/enterprise/lifecycle.py:520-535 | stored evidence is always the one some ended run of the job left |
| DeletionAdapters.BackupsAreNeverDeleted | orchestra/enterprise/lifecycle.py:1018-1040 | no call sequence reports a backup as deleted |
| Lifecycle.TenantWideHoldBlocksNothing | orchestra/coordinator/event_store.py:1125-1146 | a hold without listed resources changes no verdict |
| Lifecycle.ListedHoldBlocks | orchestra/enterprise/lifecycle.py:429-454 | an active hold blocks every resource it lists |
| Lifecycle.RetryExecutes | orchestra/enterprise/lifecycle.py:551-579 | a retry that nothing overlaps is a reset followed by an execution |
| Lifecycle.ExecutionOutcome | orchestra/enterprise/lifecycle.py:493-549 | what one execution makes of its job for each answer of the adapter; it leaves closed jobs and all others alone |
| Lifecycle.RetryOutcome | orchestra/enterprise/lifecycle.py:551-579 | each reason to refuse a retry; a refused one changes nothing, any other executes the job from pending |
| Lifecycle.LifecycleManager.CreateDeletionJob | orchestra/coordinator/event_store.py:1148-1186 | the idempotent insert: the job the resource has, or a new pending one |
| Lifecycle.LifecycleManager.Delete | orchestra/enterprise/lifecycle.py:396-491 | refuses by the gates in order, decided from the calls before: foreign caller, held resource, retained resource; otherwise returns the job of the resource, new and pending if it had none |
| Lifecycle.LifecycleManager.ExecuteDeletion | orchestra/enterprise/lifecycle.py:493-549 | the fields follow the run extended by the transactions of one execution, and the job takes the outcome of the adapter |
| Lifecycle.LifecycleManager.HandleAdapterFailure | orchestra/enterprise/lifecycle.py:604-646 | a raising adapter costs one attempt and fails the job when that was the last one |
| Lifecycle.LifecycleManager.RetryDeletion | orchestra/enterprise/lifecycle.py:551-579 | refuses unknown, deleted, held and exhausted jobs and then changes nothing; otherwise follows the run extended by a retry, which executes the job from pending |
| EventBus.TopicAnnounced | orchestra/streaming/event_bus.py:62-99 | publishing and closing keep replay buffer, closed flag and log in agreement |
| EventBus.DeliveredPut | orchestra/streaming/event_bus.py:77-80 | offering an item keeps a queue's stream a subsequence of what it was offered, equal to it if nothing was dropped |
| EventBus.NewQueueOk | orchestra/streaming/event_bus.py:123-142 | a new queue starts with the replay and, after a close, the sentinel |
| EventBus.StepKeepsSound | orchestra/streaming/event_bus.py:62-150 | every call keeps all topics and queues in agreement |
| EventBus.AnnouncedMeans | orchestra/streaming/event_bus.py:62-99 | the announcements of a task are the events of its publish calls, and a sentinel iff some call closed it |
| EventBus.LogIsAnnounced | orchestra/streaming/event_bus.py:62-99 | on every run exactly what the calls announced is logged, whether or not anyone was subscribed |
| EventBus.SubscriptionFollowsCalls | orchestra/streaming/event_bus.py:110-150 | a subscription lasts from its call to the first unsubscribe call for its queue, and not at all on a closed task |
| EventBus.ReplayIsBoundedSuffix | orchestra/streaming/event_bus.py:105-108 | on every run the replay holds the newest events of the publish calls, up to the bound |
| EventBus.Delivery | orchestra/streaming/event_bus.py:62-150 | on every run a subscriber sees an ordered subsequence of the replay followed by what the later calls announced, and exactly that unless it was owed more than 512 items and its queue filled |
| EventBus.ExactDelivery | orchestra/streaming/event_bus.py:62-150 | without publishing after a close: the last min(buffer, n) of the events published before the subscribe call, every event published after it, then one sentinel iff some call closed the task |
| EventBus.SentinelIffRoom | orchestra/streaming/event_bus.py:83-99 | on every run a subscriber registered at the close ever gets the sentinel iff its queue held fewer than 512 items then |
| EventBus.LateSentinelIffRoom | orchestra/streaming/event_bus.py:132-140 | a subscriber that arrives after the close gets it iff fewer than 512 events are replayed |
| EventBus.PutToEach | orchestra/streaming/event_bus.py:70-80 | the loop offers an item once to each subscriber, in any order |
| EventBus.Prefill | orchestra/streaming/event_bus.py:123-139 | the contents of a new queue |
| EventBus.BusService.Publish | orchestra/streaming/event_bus.py:62-81 | the history of the task holds the newest of its publish calls including this one, whether or not anyone is subscribed; each registered queue with room takes the event, and no other queue changes |
| EventBus.BusService.Close | orchestra/streaming/event_bus.py:83-99 | the task is closed; each registered queue with room takes one sentinel, and closing twice does nothing |
| EventBus.BusService.Subscribe | orchestra/streaming/event_bus.py:110-142 | the fields follow the run extended by the subscription, with the new queue prefilled and, unless the task is closed, registered |
| EventBus.BusService.Unsubscribe | orchestra/streaming/event_bus.py:144-150 | the fields follow the run extended by the end of the subscription; unknown queues change nothing |
| EventBus.BusService.Replay | orchestra/streaming/event_bus.py:105-108 | returns the newest events of the publish calls so far, up to the bound |
| Publishing.StepKeepsSound | orchestra/publishing/registry.py:86-215 | every call keeps cards, latest pointers and partner index in agreement |
| Publishing.RevokeKeepsLatest | orchestra/publishing/registry.py:194-207 | revoking the pointed version leaves the pointer on a published one or removes it when none is left; other pointers stay |
| Publishing.RevokedIsHistory | orchestra/publishing/registry.py:177-215 | the revoked keys are those some call of the history revoked |
| Publishing.PartnerIndexMatchesHistory | orchestra/publishing/registry.py:126-126 | on every run a partner's index is exactly its never-revoked cards |
| Publishing.LatestMatchesHistory | orchestra/publishing/registry.py:124-143 | on every run the latest pointer names a stored never-revoked card of its partner and exists while some version is published |
| Publishing.LeftPublishedForGood | orchestra/publishing/registry.py:169-193 | a version that leaves the published state never returns to it |
| Publishing.PublishedMeansUntouched | orchestra/publishing/registry.py:169-193 | on every run a stored card is published iff no deprecate and no revoke call was applied to it |
| Publishing.StatusIsLastCall | orchestra/publishing/registry.py:169-193 | on every run a stored card is revoked, or deprecated, iff the last such call applied to it was a revoke, or a deprecate |
| Publishing.VersionIsImmutable | orchestra/publishing/registry.py:86-130 | on every run a version stays the card of the one call that published it, up to its status and revocation reason |
| Publishing.VersionLookup | orchestra/publishing/registry.py:149-153 | looking up a version succeeds iff some call published it, and returns what that call published |
| Publishing.ReasonIsLast | orchestra/publishing/registry.py:185-190 | the revocation reason a card shows is that of the last revocation applied to it |
| Publishing.LatestLookup | orchestra/publishing/registry.py:146-160 | looking up a card without a version never dangles, and on every run returns a published card iff no deprecate call was applied to the pointed version |
| Publishing.RevokePromotesOldest | orchestra/publishing/registry.py:194-207 | after revoking the latest version its entry moves to the oldest remaining published one, which is the newest iff just one remains, and is removed iff none remains |
| Publishing.RevokeSkipsNewer | orchestra/publishing/registry.py:196-205 | a run in which the pointer goes back to the first version although the second is published |
| Publishing.PublishKeepsPointer | orchestra/publishing/registry.py:124-125 | a plain publish never moves an existing pointer |
| Publishing.PublishedRegistry.PublishCard | orchestra/publishing/registry.py:86-130 | refuses non-drafts, taken versions and missing keys; otherwise stores the card as published |
| Publishing.PublishedRegistry.PublishNewVersion | orchestra/publishing/registry.py:132-144 | also moves the latest pointer |
| Publishing.PublishedRegistry.DeprecateCard | orchestra/publishing/registry.py:169-175 | marks a stored card deprecated |
| Publishing.PublishedRegistry.FindSuccessor | orchestra/publishing/registry.py:198-205 | the first other published version in insertion order |
| Publishing.PublishedRegistry.RevokeCard | orchestra/publishing/registry.py:177-215 | marks a stored card revoked and updates pointer and index |
| Publishing.PublishedRegistry.GetCard | orchestra/publishing/registry.py:146-160 | with a version it succeeds iff some call published that version, without one iff a latest pointer exists |
| Publishing.PublishedRegistry.ListForPartner | orchestra/publishing/registry.py:165-167 | lists exactly the partner's never-revoked cards, in ascending order of their keys |
| OutboxDispatch.OffersAreOfEntries | orchestra/runtime/outbox.py:106-108 | a flush makes one sink call per pending entry, the j-th for the j-th in enqueue order |
| OutboxDispatch.FlushedEntry | orchestra/runtime/outbox.py:103-118 | a flush leaves delivered entries alone and marks each other one with the outcome of its own call |
| OutboxDispatch.PendingTakesOutcome | orchestra/runtime/outbox.py:72-84 | the j-th pending entry takes the outcome of the j-th sink call, the error text of a failed one included |
| OutboxDispatch.RunIsSound | orchestra/runtime/outbox.py:60-118 | every run keeps entries and sink calls in agreement |
| OutboxDispatch.Conservation | orchestra/runtime/outbox.py:60-118 | each entry is pending and never accepted, or accepted exactly once; attempts are its sink calls |
| OutboxDispatch.EntriesSurvive | orchestra/runtime/outbox.py:60-88 | no entry is lost or reordered, and delivered ones never change |
| OutboxDispatch.EntriesAreEnqueued | orchestra/runtime/outbox.py:60-67 | on every run the entries are those of the enqueue calls, in order |
| OutboxDispatch.RemainingIsFailed | orchestra/runtime/outbox.py:118-118 | what remains pending after a flush is what failed in it |
| OutboxDispatch.MarkIsNextStep | orchestra/runtime/outbox.py:72-84 | marking the first entry with the id is the next step of the flush |
| OutboxDispatch.Outbox.PendingEntries | orchestra/runtime/outbox.py:69-70 | the undelivered entries in order |
| OutboxDispatch.Outbox.Mark | orchestra/runtime/outbox.py:72-84 | changes exactly the first entry with the id |
| OutboxDispatch.Dispatcher.FlushOutbox | orchestra/runtime/outbox.py:103-118 | delivered plus failed is the pending count before, remaining is failed, and entries and sink calls are those of a flush |

## Left out

- Kahn.TopologicalOrder: does not say which of several valid orders the queue produces, because everything downstream is proved for any of them.
- Kahn.TopologicalOrder: the candidate and the normalized graph contain the same loop; it is modelled once.
- FrontEnd.Parse: data views of a contract, timeouts and display names are not modelled.
- Registry.EligibleSet: the sort is a library call; it is modelled by an insertion sort on values, and reason strings are left out.
- Registry.Route: the rationale is kept as a structured choice, not as formatted text.
- Resolver.ClosureCheck: a manifest id is the manifest itself, so distinct manifests are assumed to have distinct ids.
- Merkle.VerifiedProofBinds: collision freedom of the pair hash is a hypothesis; log length and proof length are fixed, because the log separates neither leaves from inner nodes nor lengths.
- Merkle.AppendKeepsRoot: also assumes that no digest is the hash of a pair that begins with it.
- RateLimit.TokenBucket.TryAcquire: floats are reals; a clock reading older than the last one counts as the last one, as in the code.
- Approvals.StepKeepsInv: the decision and the wake-up of one process are one step, because the wake-up touches nothing outside that process; dying between them is the store step followed by a restart.
- BreakGlass.BreakGlassService.RequestAccess: the task anchor and the audit events are not modelled.
- Lifecycle.LifecycleManager.Delete: audit events and the search for the case id of a hold are left out.
- Approvals.ApprovalStore.Create: the class is one connection, so it never misses a row; calls that do are in the runs.
- Lifecycle.LifecycleManager.ExecuteDeletion: the class is one process, so its calls never overlap; overlapping calls are in the runs.
- DeletionAdapters.DeleteReceipt: malformed events and payload digests are not modelled.
- EventBus.BusService.Subscribe: queue objects are named by ids, so aliasing of queues is not modelled.
- Publishing.PublishedRegistry.PublishCard: signatures, timestamps and metrics are not modelled; whether a signing key is available is a parameter.
- OutboxDispatch.Outbox.Enqueue: entry ids are fresh; entries are values in a sequence, so references held by callers are not modelled.
- Effect targets, joins other than the default rule, and explicit output labels: the checks do not use them.
- SQL, locking, threads and asyncio: a transaction is one atomic step and time is a parameter.
- SHA-256, HMAC, JSON and base64: digests are abstract and signatures are left out.
- HTTP applications, middleware, command line, SDK, adapters, templates, console and logging: plumbing without a deep property.
- State-transition tables, fencing guard, leases, release gate, SLO ratios, delegation contracts: easy members.
- The coordinator's execution of a plan, receipts and node grants: not part of this model.
