# Path construction and loop-boundary tracking of the Salesforce Graph Engine

This project models two sequential pieces of the Salesforce Graph Engine (sfge), the
path-sensitive analyzer of the sfdx-scanner for Apex code, and proves properties of them
in Dafny.

**The path builder (`ApexPathUtil`)** turns the control-flow routes of a method into
`ApexPath`s. A route is the vertex sequence that the graph traversal returns when it
follows `CFG_PATH` edges from a start vertex until no edge is left. While a route is
copied into a path, every `StandardConditionVertex.Unknown` is resolved to a positive or
a negative condition:

- A forward walk looks one vertex ahead and compares it with the condition's next sibling.
  It then appends that vertex unchanged.
- A backward walk compares the condition with the previous sibling of the vertex it
  accumulated just before. It then reverses the list, so that the path reads forward.

A method without a block statement (a default constructor) gets one synthetic path. It
holds a block vertex with id -1. A walk that finds no route gives one path holding only
the start vertex. Backward paths are filtered on how they end. From a throw statement,
only the paths ending in that throw are kept. From any other vertex, the paths ending in
an exception are dropped. The module `ApexPathUtil` (apex_path_util.dfy) holds this part.
`GetPaths` is the imperative `getPaths`. Its route loop is `ResolveRoute`, whose body is
`ResolveNext`, and its expansion loop is `ExpandPaths`. Each is proved equal to a
specification function (`RouteVertices`, `ExpandAll`, `Paths`). The lemmas state what
those functions guarantee.

**The loop visitor (`LoopDetectionVisitor`)** keeps a stack of loop boundaries while it
walks a path. Entering a do, for-each, for or while statement pushes a `Loop` boundary.
Leaving it pops that boundary. A method call under a loop can push exclusion boundaries,
which hide the loop:

- A call into a static block pushes a permanent exclusion.
- The collection expression of a for-each (its parent is the for-each on top of the
  stack) pushes an overridable exclusion.

Leaving the call pops one exclusion keyed to it. The module `LoopDetection`
(loop_detection.dfy) holds the class `LoopDetectionVisitor`. The class has a
`seq<Boundary>` field and one method per `visit`/`afterVisit`. The contracts of
`VisitLoop` and `AfterVisitLoop` state the push and the pop directly. The contracts of
`VisitMethodCall` and `AfterVisitMethodCall` tie the new stack to the pure functions
`CallExclusions` and `LeaveCall`. `EnterLoops` and `LeaveLoops` describe a run of loop
visits, each step being the push or pop of one `VisitLoop` or `AfterVisitLoop`; they appear
in the lemmas only, not in a method contract.

Graph queries are modelled as fields of two records of functions. `FlowGraph` holds the
block lookup, the control-flow vertex, the parent method, the siblings, the traversal and
the expander. `Ast` holds the parent of a vertex and whether a call targets a static block.
Where the source would crash, the model uses a precondition:

- `it.next()` with no vertex left;
- `vertices.get(-1)` on an empty list;
- `.equals` called on a null sibling;
- `Optional.get()` on an empty parent method.

A missing control-flow vertex raises `UnexpectedException` in the source. The model returns
it as an `Err` result.

The forward walk does not resolve the vertex it consumes as its look-ahead
(ApexPathUtil.java:163-170 appends it as loaded). `ForwardWalkReads` and
`ForwardWalkSkips` state the resolution for every route. Each unknown condition at a
position the walk reads is resolved. Each position the walk skips is the look-ahead of such
a condition and is copied unchanged. So an unknown condition right after another unknown condition stays unknown.
`ForwardPolarity` is the corollary for routes where no two unknown conditions are adjacent:
there every unknown condition is resolved.

A call can meet both exclusion rules. Visiting it then pushes two boundaries, while leaving
it pops only one, so the permanent exclusion stays on the stack (`CallVisitBalance`). It is
not known whether the graph can produce such a call, so this is recorded as proved
behaviour and not as a defect.

## Model

| member | source | states |
|---|---|---|
| `ApexPathUtil.ResolveRoute` | sfge/src/main/java/com/salesforce/graph/ops/ApexPathUtil.java:143-178 | the while loop over one route, followed by the reversal of a backward route, produces exactly `RouteVertices` of the route |
| `ApexPathUtil.ResolveNext` | sfge/src/main/java/com/salesforce/graph/ops/ApexPathUtil.java:145-174 | one turn of that loop: a vertex that is not an unknown condition is appended as it is and the walk moves on by one; walking forward, an unknown condition is appended resolved against the next route vertex, that vertex is appended unchanged, and the walk moves on by two; walking backward, an unknown condition is appended resolved against the previous sibling of the last accumulated vertex, and the walk moves on by one; the walk stays in agreement with the forward or backward resolution |
| `ApexPathUtil.GetPaths` | sfge/src/main/java/com/salesforce/graph/ops/ApexPathUtil.java:113-194 | the result is one path per route in route order, or the single start-vertex path when there are no routes; with expansion on, each built path is replaced in order by what the expander makes of it |
| `ApexPathUtil.ExpandPaths` | sfge/src/main/java/com/salesforce/graph/ops/ApexPathUtil.java:185-191 | the expansion loop concatenates, in order, the expansions of every built path |
| `ApexPathUtil.GetForwardPaths` | sfge/src/main/java/com/salesforce/graph/ops/ApexPathUtil.java:54-72 | a method without a block statement yields exactly one path, holding only a block vertex with id -1 and not ending in an exception; otherwise the forward paths from the block |
| `ApexPathUtil.GetForwardPathsExpanding` | sfge/src/main/java/com/salesforce/graph/ops/ApexPathUtil.java:43-52 | the flag overloads build forward paths with a config that has the given flag and no policies |
| `ApexPathUtil.GetReversePaths` | sfge/src/main/java/com/salesforce/graph/ops/ApexPathUtil.java:86-111 | a start vertex with no control-flow vertex gives `UnexpectedException(start)`; otherwise the backward paths of its control-flow vertex in its parent method, filtered by `KeepReaching` |
| `ApexPathUtil.GetReversePathsExpanding` | sfge/src/main/java/com/salesforce/graph/ops/ApexPathUtil.java:74-84 | the flag overloads build reverse paths with a config that has the given flag and no policies |
| `ApexPathUtil.PlainConfig` | sfge/src/main/java/com/salesforce/graph/ops/ApexPathUtil.java:49-50 | a config built from the flag alone carries that flag and registers no policy |
| `ApexPathUtil.FullConfiguredConfig` | sfge/src/main/java/com/salesforce/graph/ops/ApexPathUtil.java:196-210 | the full preset expands method calls and registers each of the five known policies, none twice |
| `ApexPathUtil.SimpleExpandingConfig` | sfge/src/main/java/com/salesforce/graph/ops/ApexPathUtil.java:212-215 | expands method calls and registers no policy |
| `ApexPathUtil.SimpleNonExpandingConfig` | sfge/src/main/java/com/salesforce/graph/ops/ApexPathUtil.java:217-220 | does not expand method calls and registers no policy |
| `Vertices.Polarize` | sfge/src/main/java/com/salesforce/graph/ops/ApexPathUtil.java:155-171 | a resolved condition keeps the vertex id, is no longer unknown, and is positive exactly when asked for positive and negative otherwise |
| `ApexPathUtil.NewPath` | sfge/src/main/java/com/salesforce/graph/ops/ApexPathUtil.java:179-180 | a new path belongs to the method and holds the vertices; it ends in an exception exactly when its last vertex is a throw statement, and then that vertex, and only then, is its throw statement |
| `ApexPathUtil.ForwardResolutionOneForOne` | sfge/src/main/java/com/salesforce/graph/ops/ApexPathUtil.java:145-174 | forward resolution keeps the route's length and every vertex id, and leaves every vertex that is not an unknown condition as it is (the look-ahead branch consumes two and appends two) |
| `ApexPathUtil.ForwardWalkReads` | sfge/src/main/java/com/salesforce/graph/ops/ApexPathUtil.java:145-171 | for any route, an unknown condition at a position the walk reads is resolved positive exactly when the next route vertex is its next sibling, and that next vertex is appended unchanged |
| `ApexPathUtil.ForwardWalkSkips` | sfge/src/main/java/com/salesforce/graph/ops/ApexPathUtil.java:163-170 | for any route, every position the walk does not read follows an unknown condition the walk read, and is appended unchanged |
| `ApexPathUtil.ForwardPolarity` | sfge/src/main/java/com/salesforce/graph/ops/ApexPathUtil.java:162-171 | with no two unknown conditions adjacent, each unknown condition becomes positive exactly when the next route vertex is its next sibling, and no unknown condition is left |
| `ApexPathUtil.BackwardResolutionOneForOne` | sfge/src/main/java/com/salesforce/graph/ops/ApexPathUtil.java:145-174 | backward resolution keeps the route's length and every vertex id, leaves every vertex that is not an unknown condition as it is, and leaves no unknown condition |
| `ApexPathUtil.BackwardPolarity` | sfge/src/main/java/com/salesforce/graph/ops/ApexPathUtil.java:155-161 | each unknown condition of a backward route becomes positive exactly when the previous sibling of the vertex accumulated before it is the condition, and negative otherwise |
| `ApexPathUtil.RouteVerticesShape` | sfge/src/main/java/com/salesforce/graph/ops/ApexPathUtil.java:142-178 | a path has its route's length; a forward path starts at the start vertex in route order, and a backward path, after reversal, ends at the start vertex in reverse route order |
| `ApexPathUtil.BuiltPathsShape` | sfge/src/main/java/com/salesforce/graph/ops/ApexPathUtil.java:136-182 | without routes there is exactly one path holding only the start vertex; otherwise one path per route in route order, each of the method, as long as its route and anchored at the start |
| `ApexPathUtil.ExpandAllMembers` | sfge/src/main/java/com/salesforce/graph/ops/ApexPathUtil.java:185-191 | a path is in the expansion exactly when the expander produced it from one of the built paths |
| `ApexPathUtil.ExpandAllIdentity` | sfge/src/main/java/com/salesforce/graph/ops/ApexPathUtil.java:185-191 | an expander that returns each path alone leaves the list of built paths unchanged |
| `ApexPathUtil.KeepReaching` | sfge/src/main/java/com/salesforce/graph/ops/ApexPathUtil.java:95-108 | the filter never lengthens the list, and every path it keeps is one of the built paths and reaches the start |
| `ApexPathUtil.KeepReachingExactly` | sfge/src/main/java/com/salesforce/graph/ops/ApexPathUtil.java:95-108 | the filter keeps exactly the paths that reach the start (both directions), as an order-preserving subsequence |
| `ApexPathUtil.ThrowStartKeepsOwnThrow` | sfge/src/main/java/com/salesforce/graph/ops/ApexPathUtil.java:96-104 | from a throw statement, every kept path ends in an exception whose throw statement is the start, and every such path is kept |
| `ApexPathUtil.OtherStartDropsExceptions` | sfge/src/main/java/com/salesforce/graph/ops/ApexPathUtil.java:105-108 | from any other vertex no kept path ends in an exception, and every path not ending in one is kept |
| `Seqs.ReverseAt` | sfge/src/main/java/com/salesforce/graph/ops/ApexPathUtil.java:176-178 | reversing keeps the length and puts element k at position length-1-k |
| `LoopDetection.LoopDetectionVisitor.constructor` | sfge/src/main/java/com/salesforce/rules/ops/visitor/LoopDetectionVisitor.java:17-19 | a new visitor has an empty boundary stack |
| `LoopDetection.LoopDetectionVisitor.Peek` | sfge/src/main/java/com/salesforce/rules/ops/visitor/LoopDetectionVisitor.java:80-81 | the top boundary, or None exactly when the stack is empty |
| `LoopDetection.LoopDetectionVisitor.PushBoundary` | sfge/src/main/java/com/salesforce/rules/ops/visitor/LoopDetectionVisitor.java:23 | the boundary is added on top and nothing else changes |
| `LoopDetection.LoopDetectionVisitor.PopBoundary` | sfge/src/main/java/com/salesforce/rules/ops/visitor/LoopDetectionVisitor.java:29 | requires the top to be keyed to the vertex; removes exactly the top |
| `LoopDetection.LoopDetectionVisitor.VisitLoop` | sfge/src/main/java/com/salesforce/rules/ops/visitor/LoopDetectionVisitor.java:21-58 | visiting any of the four loop kinds pushes exactly one `Loop` boundary keyed to it and returns true |
| `LoopDetection.LoopDetectionVisitor.AfterVisitLoop` | sfge/src/main/java/com/salesforce/rules/ops/visitor/LoopDetectionVisitor.java:27-62 | leaving a loop pops exactly its boundary, which must be on top |
| `LoopDetection.LoopDetectionVisitor.VisitMethodCall` | sfge/src/main/java/com/salesforce/rules/ops/visitor/LoopDetectionVisitor.java:77-87 | visiting a call returns true, keeps the old stack as a prefix and only appends `CallExclusions` of the stack as it was before the visit |
| `LoopDetection.LoopDetectionVisitor.CreatePermanentLoopExclusionIfApplicable` | sfge/src/main/java/com/salesforce/rules/ops/visitor/LoopDetectionVisitor.java:89-95 | pushes a permanent exclusion keyed to the call exactly when it is a static-block call |
| `LoopDetection.LoopDetectionVisitor.CreateOverridableLoopExclusionIfApplicable` | sfge/src/main/java/com/salesforce/rules/ops/visitor/LoopDetectionVisitor.java:97-111 | pushes an overridable exclusion keyed to the call exactly when the given loop item is a for-each and is the call's parent |
| `LoopDetection.LoopDetectionVisitor.AfterVisitMethodCall` | sfge/src/main/java/com/salesforce/rules/ops/visitor/LoopDetectionVisitor.java:113-129 | leaving a call gives `LeaveCall` of the stack |
| `LoopDetection.LoopDetectionVisitor.IsInsideLoop` | sfge/src/main/java/com/salesforce/rules/ops/visitor/LoopDetectionVisitor.java:131-133 | reports a loop exactly when the top boundary is a `Loop` and no permanent exclusion is on the stack, and then reports its vertex |
| `LoopDetection.NestedLoopsUnwind` | sfge/src/main/java/com/salesforce/rules/ops/visitor/LoopDetectionVisitor.java:21-62 | entering nested loops and leaving them innermost first restores the stack; with no permanent exclusion on the stack the innermost loop entered is the one reported |
| `LoopDetection.EnterLoopsPushes` | sfge/src/main/java/com/salesforce/rules/ops/visitor/LoopDetectionVisitor.java:21-58 | entering loops keeps the old stack as a prefix and adds one `Loop` boundary per loop, in order |
| `LoopDetection.CallOnlyPushesExclusions` | sfge/src/main/java/com/salesforce/rules/ops/visitor/LoopDetectionVisitor.java:78-111 | visiting a call adds at most two boundaries, all exclusions keyed to the call, and none on an empty stack |
| `LoopDetection.StaticBlockCallPushesPermanent` | sfge/src/main/java/com/salesforce/rules/ops/visitor/LoopDetectionVisitor.java:89-95 | a permanent exclusion is pushed exactly when the stack is non-empty and the call is a static-block call, and it is pushed first |
| `LoopDetection.ForEachCollectionCallPushesOverridable` | sfge/src/main/java/com/salesforce/rules/ops/visitor/LoopDetectionVisitor.java:97-111 | an overridable exclusion is pushed exactly when the top item before the visit is a for-each and the call's parent is that for-each |
| `LoopDetection.BothRulesPushTwo` | sfge/src/main/java/com/salesforce/rules/ops/visitor/LoopDetectionVisitor.java:80-84 | a call meeting both rules pushes a permanent and then an overridable exclusion |
| `LoopDetection.LeaveCallPopsOwnExclusion` | sfge/src/main/java/com/salesforce/rules/ops/visitor/LoopDetectionVisitor.java:113-129 | leaving a call pops exactly one boundary when the top is an exclusion keyed to the call, and otherwise leaves the stack unchanged |
| `LoopDetection.CallVisitBalance` | sfge/src/main/java/com/salesforce/rules/ops/visitor/LoopDetectionVisitor.java:77-129 | for a call not already on the stack, visiting and leaving restores the stack when at most one exclusion was pushed; when both were pushed the permanent one remains |
| `LoopDetection.ForEachCollectionRunsOnce` | sfge/src/main/java/com/salesforce/rules/ops/visitor/LoopDetectionVisitor.java:65-111 | while the collection call of a for-each is visited no loop is reported; after it the stack is as before, and the for-each is reported again when no permanent exclusion is below it |
| `LoopDetection.StaticBlockCallOutsideLoops` | sfge/src/main/java/com/salesforce/rules/ops/visitor/LoopDetectionVisitor.java:89-95 | a static-block call under any number of nested loops reports no loop, nor does any loop nested inside the call while it is visited |
| `LoopDetection.LoopsAbovePermanentNotReported` | sfge/src/main/java/com/salesforce/rules/ops/visitor/LoopDetectionVisitor.java:91-93 | once a permanent exclusion is on the stack, no loop entered after it is reported, at any depth |

## Left out

- The Gremlin traversal (`repeat(...).until(...).path().dedup()`) and `SFVertexFactory.load` are foreign graph-library calls. The model takes their result as the deduplicated routes `FlowGraph.routes`, whose vertices are already loaded, and requires each route to start at the start vertex.
- `GraphUtil.getControlFlowVertex`, `getParentMethod`, `getOnlyChildOrNull(BLOCK_STATEMENT)`, `getNextSibling` and `getPreviousSibling` are graph queries. They are uninterpreted fields of `FlowGraph`.
- `ApexPathExpanderUtil.expand` and the five policies (collapsers, excluders, the null constrainer) are not part of this model. Expansion is an uninterpreted function applied to each path in order. The policies appear only as names in the presets. Cross-product expansion and its depth bound are not modelled.
- `ApexPathExpanderConfig.Builder` is not part of this model. A built config is a value holding the flag and the ordered policy list. `Builder.get()` is taken to register no policy, as the comments of the simple presets say.
- The `ApexPath` class is not part of this model. A built path is taken to end in an exception exactly when its last vertex is a throw statement, and that vertex is then its throw statement.
- KeepReaching: a path that ends in an exception but has no throw statement would make the source's filter throw a NullPointerException. The model drops such a path instead.
- The crashes of `getPaths` and `getReversePaths` are not modelled as results. These are a missing look-ahead vertex, an unknown condition first on a backward route, a null sibling and a missing parent method. They are preconditions instead (`ForwardResolvable`, `BackwardResolvable`, `ReverseReady`).
- `LoopBoundaryDetector` is not part of this model. It is modelled as a plain stack. `popBoundary(v)` requires the top to be keyed to `v`. `isInsideLoop` reports the top boundary's vertex when that boundary is a `Loop` and no permanent exclusion is on the stack, and nothing otherwise. This is read from the visitor's own comments: an exclusion on top marks calls that run once although they sit under a loop (LoopDetectionVisitor.java:65-68), and a permanent exclusion means that no loop nested before it counts as a loop context (LoopDetectionVisitor.java:92). The model reads "permanent" as covering loops entered after the exclusion too.
- `StaticBlockUtil.isStaticBlockMethodCall` and `getParent` are uninterpreted fields of `Ast`.
- The `SymbolProvider` argument (unused by these methods) and the `DefaultNoOpPathVertexVisitor` double dispatch are left out. The four loop overloads become one `VisitLoop`/`AfterVisitLoop` whose precondition names the four loop kinds.
- CacheCreatorTest exercises cache-file writing through mocks and an I/O failure. It is plumbing outside the core.
- Worker threads, timeouts and logging are concerns of the surrounding harness.
