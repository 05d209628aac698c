# garmd: a model of what the tool plane decides

garmd serves tools to callers it does not trust equally. Every call passes one governance chain; what a
caller may see, set and be shown is decided from clearances, compartments, verbs and tool sets; approvals are
single use across replicas; the ledger is written in batches; and the catalogue all of this is read from is
replaced while requests are in flight. This project models those decisions in Dafny and proves what they
guarantee on every input, every tree and every run. `dafny verify dfyconfig.toml` checks all of it.

| file | what it models |
|---|---|
| `Protobuf` | message types as descriptors give them |
| `Policy` | clearances, the compartment registry, and the few laws about them the daemon relies on |
| `CardTree`, `CardProjection`, `CardTheorems` | labelled trees, floors, validation and projection as functions, and their theorems |
| `TypeGraph` | the search for a Card in a cyclic descriptor graph, and its memo |
| `CardResponse`, `CardWalk` | step 8 over a whole response: the specification, and the walk that computes it |
| `Authority` | verb sets, the delegation fold, visibility, narrowing, the card floor |
| `Listing` | the advertised input schema and the step 3 write check |
| `ReplayKey`, `Approvals` | the bucket key, step 5, sizing and guarding the bucket, every run of every replica |
| `Recorder` | the batching ledger recorder and every interleaving of it |
| `Chain` | one call as a trace |
| `Generations`, `Reload`, `Planes` | a loaded catalogue; the store and the poller over every run; one generation per request |
| `Reconciler`, `KeySet`, `UnknownFields` | quarantine verdicts, the JWKS cache, enum values in unread bytes |

Where the source changes state, the model does: the walk, the buffer, the store, the poller, the sweeper, the
cache and the call are classes whose methods are proved against functions of the old state, and the theorems are
about those functions.

## What is assumed

- `Allows` and the registry live in another module. `Policy.Lawful` is all that is taken of them: over specified
  clearances, `Allows` implies at-or-above, never loses by more clearance held and never gets harder as less is
  asked; the registry numbers compartments injectively. Nothing is assumed about an unspecified clearance that is
  held.
- Exactness of the card projection asks that the floor is one the viewer can be held to (`CardTheorems.Usable`);
  `Authority.VisibleMakesFloorUsable` proves that step 2 establishes it.
- Accounting for every card asks that nothing which wraps a card carries a label of its own
  (`CardResponse.PlainWrappers`), because the walk hands each card the endpoint's floor.
- Descriptors arrive resolved, with distinct names and numbers in a message, and a value has its declared type. A
  compiled plan names each classified field by its own path, outside a Timestamp.
- All replicas and the bucket share one monotone clock; the bucket's TTL does not change during a run; an issuer
  gives an id one issue time; an approval is first judged no earlier than that. The age check, which lives in another
  module, accepts no approval older than its tool's ceiling plus the clock skew; that single use fails where its
  condition does also takes it to accept one of every age up to that. How long an answered create can lag behind that
  judgement is a parameter, `lag`: the code sets no bound on it.
- Loading the same bytes always gives the same answer. Whether this deployment admits and governs them may change
  from poll to poll.

## Where the promise and the code part

- Non-interference: two responses that differ only where the viewer cannot reach are answered alike exactly when
  both validate or neither does (`CardResponse.NonInterference`). A label that is invalid inside an unreachable subtree
  refuses the whole answer, so validity is what such a caller can tell; `CardResponse.AnUnreachedLabelShows` is such
  a pair.
- Listing: a path that enters a message type twice is accepted and never listed
  (`Listing.SelfReferenceIsListedOnce`). `Listing.ListingAndEnforcementAgree` gives the exact condition.
- Approvals: an approval is judged first and its record created later, and the bucket is sized for the first alone. An
  approval of exactly the age the bucket remembers is still acceptable, and its create can lag behind. The law holds
  exactly when a record outlives that age by more than the lag (`Approvals.OneApprovalOneExecution`); otherwise a
  record can expire between the second judgement and the second create, and `Approvals.ReplayIsARun` runs the tool
  twice.
- The bucket key is not injective (`ReplayKey.KeyIsNotInjective`); `ReplayKey.KeySharedExactly` says which ids share
  one. Sharing can only refuse an approval, never repeat one.
- The actor of a delegated call is the innermost identity, as the code takes it; section 4.1 of RFC 8693 puts the
  current actor outermost.
- Retention of superseded generations is documented as time since they were superseded. The code compares the time
  they were loaded: `Reload.DroppedWhenSuperseded` is a generation dropped by the swap that supersedes it, and
  `Reload.RetentionAsDocumented` says exactly when the two rules agree.

## Model

| member | source | states |
|---|---|---|
| `Policy.CoversIsNames` | internal/toolplane/sanitise.go:642-652 | covering the bits a label needs is holding the names it lists, so the numbering neither widens nor narrows |
| `CardTree.Join` | internal/toolplane/sanitise.go:227-241 | the floor inside a labelled node is the least upper bound of the floor outside and the node's label |
| `CardTree.LabelledExactly` | internal/toolplane/sanitise.go:88-103 | a type is labelled if and only if its field named access is one Label, not a list or a map of them |
| `CardTree.ItemPathTellsApart` | internal/toolplane/sanitise.go:721-730 | no two items of one node are named by the same path |
| `CardTheorems.ValidateNodeExact` | internal/toolplane/sanitise.go:571-626 | a tree is accepted if and only if every label is readable, every pinned type is where it should be and, on every root-to-node path below the endpoint's policy, labels never fall |
| `CardTheorems.ValidateFieldsExact` | internal/toolplane/sanitise.go:589-625 | the same for the fields of a node under any floor that summarises the labels above it |
| `CardTheorems.NonInterferenceNode` | internal/toolplane/sanitise.go:433-450 | two nodes that differ only inside subtrees whose root the viewer does not reach project to the same node and the same withheld names |
| `CardTheorems.NonInterferenceFields` | internal/toolplane/sanitise.go:469-527 | the same for all the children of a node, counts of survivors included |
| `CardTheorems.SurvivorsReachedFields` | internal/toolplane/sanitise.go:469-527 | on any tree, valid or not, every labelled node left at any depth is one the viewer reaches |
| `CardTheorems.ReachDown` | internal/toolplane/sanitise.go:633-653 | whoever reaches a label reaches every label between it and a usable floor |
| `CardTheorems.ExactNode` | internal/toolplane/sanitise.go:433-450 | on a validated node the projection is the pruning: the node survives if and only if the viewer reaches a labelled leaf at or below it, and otherwise goes under its one name |
| `CardTheorems.ExactFields` | internal/toolplane/sanitise.go:469-527 | on a validated tree exactly the labelled nodes with a reached leaf survive, each topmost node that went is named once in document order, and the counts are positive exactly when leaves exist and are reached |
| `CardTheorems.KeptLeavesFields` | internal/toolplane/sanitise.go:469-527 | the leaves of what is left are the reached leaves of what was there, unchanged and in order |
| `CardTheorems.ReachIsByName` | internal/toolplane/sanitise.go:633-653 | a viewer reaches a label if and only if it has the clearance and every compartment the label names is declared and among the names it holds |
| `CardTheorems.SurvivorsAreCleared` | internal/toolplane/sanitise.go:469-527 | on any tree, every label left at any depth is one the viewer has the clearance and, by name, every compartment for |
| `CardTheorems.LeavesLeftAreTheCleared` | internal/toolplane/sanitise.go:469-527 | on a validated tree a labelled leaf is left if and only if the viewer has the clearance and, by name, every compartment for its label |
| `CardTheorems.FactorNode` | internal/toolplane/sanitise.go:433-450 | projecting a node for a wider viewer first changes nothing for a narrower one |
| `CardTheorems.FactorFields` | internal/toolplane/sanitise.go:469-527 | the narrower view is the narrower view of the wider view, group collapse and counts included; with one viewer twice, projection is idempotent |
| `CardTheorems.NarrowShapeSeesNoMore` | internal/toolplane/sanitise.go:633-653 | holding no more clearance and no more compartments is reaching no more labels |
| `CardTheorems.QuietFields` | internal/toolplane/sanitise.go:657-666 | a projection that removed nothing reports nothing withheld |
| `TypeGraph.ReachesCard` | internal/toolplane/sanitise.go:138-154 | the search with one shared seen set terminates on any graph; a yes has a route to a Card, a no leaves every type it finished with closed under everything seen |
| `TypeGraph.ContainsCard` | internal/toolplane/sanitise.go:134-136 | true if and only if some route of fields, through any cycles, leads from the type to a Card |
| `TypeGraph.CardMemo.CardsIn` | internal/toolplane/core.go:1121-1133 | the memo answers as the search does for every type, hit or miss, and stays right |
| `CardResponse.GuardExactItem` | internal/toolplane/sanitise.go:353-396 | on a value of its declared type the walk guarded by the type search is the unguarded walk: the guard skips no card |
| `CardResponse.NothingToVisit` | internal/toolplane/sanitise.go:363-365 | below a type from which no card can be found the unguarded walk changes and reports nothing |
| `CardResponse.ProjectedCardIsFinal` | internal/toolplane/sanitise.go:399-416 | a projected card projected again is the same card and adds nothing to its disclosure |
| `CardResponse.NonInterference` | internal/toolplane/sanitise.go:318-335 | two responses that differ only below what the viewer does not reach are answered alike, withheld list included, if and only if both validate or neither does |
| `CardResponse.EveryCardAccountedFor` | internal/toolplane/sanitise.go:318-335 | a served response holds, in order, exactly the reached cards, each pruned and disclosing exactly what it lost, the row's list is what they and the dropped cards lost, and everything around the cards is as it was |
| `CardResponse.AnswerKinds` | internal/toolplane/sanitise.go:318-335 | a response is refused if and only if it is invalid, and gone if and only if it is itself a card the viewer does not reach |
| `CardResponse.AnUnreachedLabelShows` | internal/toolplane/sanitise.go:571-626 | on well-typed values, a card the viewer does not reach and the same with a label inside that falls below it are answered differently: gone, and refused |
| `CardResponse.GateExact` | internal/toolplane/core.go:1167-1191 | skipping the walk where no card can be found changes the answer if and only if validation would have refused |
| `CardResponse.NarrowAnswerFactors` | internal/toolplane/sanitise.go:318-335 | whoever sees no more is refused alike, told a card is gone wherever the wider viewer is, and otherwise served what projecting the wider answer gives, but for the names disclosed |
| `CardResponse.VisitStaysAccepted` | internal/toolplane/sanitise.go:353-396 | what a walk leaves of a valid response is valid |
| `CardWalk.Walk.Validate` | internal/toolplane/sanitise.go:571-626 | the first violation in document order wins, an earlier one is never overwritten, and it is the one `ValidateNode` names |
| `CardWalk.Walk.Node` | internal/toolplane/sanitise.go:433-450 | appending and cutting back the shared withheld list comes to appending what `ProjectNode` withholds |
| `CardWalk.Walk.Children` | internal/toolplane/sanitise.go:469-527 | the field-by-field rewrite and its two counters are `ProjectFields` |
| `CardWalk.Walk.FilterList` | internal/toolplane/sanitise.go:531-554 | the list rewrite is the functional filter of the list, positions counted over the original |
| `CardWalk.Walk.Card` | internal/toolplane/sanitise.go:399-416 | a reached card is kept however little is left, and carries exactly the names its own walk added |
| `CardWalk.Walk.EachField` | internal/toolplane/sanitise.go:353-396 | every field is visited in order, behind the search of its type, as `VisitFields` says |
| `CardWalk.Walk.Response` | internal/toolplane/sanitise.go:318-335 | validation precedes any removal, and the outcome is `ProjectCards` |
| `CardWalk.Sanitise` | internal/toolplane/core.go:1163-1191 | step 8 validates and walks a response if and only if a card can be found below its type, as the memo answers, and otherwise serves it as it is |
| `Authority.NewVerbSet` | internal/toolplane/principal.go:13-22 | the bit set has exactly the known verbs that were listed |
| `Authority.HasIntersection` | internal/toolplane/principal.go:24-41 | membership in an intersected verb set is membership in both |
| `Authority.VerbSetFromNames` | internal/authn/principal.go:171-183 | a claim's verbs are exactly those it names that this build knows |
| `Authority.IntersectSets` | internal/authn/principal.go:132-151 | an absent claim keeps the scope, the first claim sets it, and a later one leaves what both name |
| `Authority.Fold` | internal/authn/principal.go:30-120 | a chain deeper than the limit is refused and no other; the result holds the least clearance and exactly the compartments, verbs and sets every level holds; subject, per-hop subjects and kinds and the innermost actor are attributed as each level claims; the names dropped are reported level by level |
| `Authority.DroppedOrHeld` | internal/authn/principal.go:66-67 | a level's compartment name is reported as dropped if and only if this generation does not declare it, and is held otherwise |
| `Authority.FoldRefinesNames` | internal/toolplane/core.go:371-411 | a tool is visible to the folded chain if and only if every level holds its verb, clearance and every compartment by name and, unless no level scopes, one set of the tool is claimed by every scoping level |
| `Authority.FoldReachesByName` | internal/toolplane/sanitise.go:633-653 | a folded chain reaches a card label if and only if every level has the clearance and, by name, every compartment, all of them declared |
| `Authority.HopOrderIsIrrelevant` | internal/authn/principal.go:30-120 | chains with the same levels in another order see the same tools |
| `Authority.AddingAHopNeverWidens` | internal/authn/principal.go:30-120 | a level inserted anywhere, whatever it claims, makes no tool visible that was not |
| `Authority.Narrow` | internal/toolplane/narrow.go:41-106 | a preview is given if and only if nothing asked for exceeds what is held; it has exactly the clearance, compartments, verbs and sets asked for, and the source's own where nothing was; it is wider in no dimension and keeps the identity |
| `Authority.PreviewSeesFewerTools` | internal/toolplane/narrow.go:41-106 | a preview lists no tool its source does not |
| `Authority.PreviewSeesLessOfCards` | internal/toolplane/narrow.go:41-106 | what a preview is answered is a projection of what its source is answered, for whole responses and with the same refusals |
| `Authority.FloorFor` | internal/toolplane/sanitise.go:274-291 | the floor is the least label that demands all that the endpoint's policy and the message's default demand |
| `Authority.VisibleMakesFloorUsable` | internal/toolplane/core.go:371-379 | passing step 2 is what makes the card floor one the viewer can be held to |
| `Listing.FieldIsSet` | internal/toolplane/core.go:1213-1260 | the frontier walk answers whether the path is set on some message it fans out to through lists and maps |
| `Listing.CheckInputWrites` | internal/toolplane/core.go:832-853 | accepts if and only if every classified field that is set is one whose write level the caller's clearance allows and whose every compartment it holds, and otherwise names one that is not |
| `Listing.Render` | internal/toolplane/schema.go:75-125 | the maps filled in while walking with a shared seen set are the schema `SchemaFor` defines |
| `Listing.RenderField` | internal/toolplane/schema.go:137-188 | lists, maps and nested messages are wrapped as `FieldSchema` says |
| `Listing.ProjectInput` | internal/toolplane/schema.go:50-68 | collecting denied names and subtrees and rendering what is left gives the schema `ListedExactly` speaks of |
| `Listing.DottedPrefix` | internal/toolplane/schema.go:127-134 | a dotted name is a prefix of another at a dot only if its list of identifiers is a prefix of the other's |
| `Listing.OccursExactly` | internal/toolplane/schema.go:75-125 | a field path is in the schema if and only if it enters no message type twice and nothing along it is hidden |
| `Listing.ListedExactly` | internal/toolplane/schema.go:50-134 | a path is listed if and only if it enters no message type twice and every classified field on the way to it or at its end is one whose write level and compartments the caller has |
| `Listing.CardinalityShows` | internal/toolplane/schema.go:137-167 | a list is shown as an array, a map as a dictionary, and only a message other than a Timestamp as an object |
| `Listing.HiddenIsRefused` | internal/toolplane/core.go:832-853 | whatever the schema hides along a set path, the write check refuses |
| `Listing.ListingAndEnforcementAgree` | internal/toolplane/schema.go:50-134 | every path set in a request is in its caller's schema if and only if step 3 accepts the request and no path set in it enters a type twice |
| `Listing.AgreementWithoutCycles` | internal/toolplane/schema.go:50-134 | on acyclic descriptors step 3 accepts a request if and only if every path set in it is in the schema |
| `Listing.SelfReferenceIsListedOnce` | internal/toolplane/schema.go:84-90 | a message that contains itself has a path that is set, accepted and not listed |
| `Listing.LesserSchema` | internal/toolplane/schema.go:56-67 | a caller that holds no more is shown no path the other is not |
| `ReplayKey.ComputeKey` | internal/replay/jetstream.go:112-125 | the byte loop computes the key byte by byte |
| `ReplayKey.KeySharedExactly` | internal/replay/jetstream.go:112-125 | an id shares its key with another if and only if it holds an escaped byte or text that reads as an escape |
| `ReplayKey.KeysAreAdmitted` | internal/replay/jetstream.go:103-125 | every key is of bytes a bucket admits, and an id is its own key if and only if all its bytes are |
| `ReplayKey.InjectiveWithoutDots` | internal/replay/jetstream.go:112-125 | two ids without a dot never share a key |
| `ReplayKey.KeyIsNotInjective` | internal/replay/jetstream.go:117-121 | a slash and the text of its escape share a key |
| `Approvals.LongestGrantAge` | grants.go:293-304 | the maximum ceiling of the gated tools, attained when positive |
| `Approvals.CheckGrantCeilings` | grants.go:174-189 | passes if and only if every gated tool has a positive ceiling |
| `Approvals.ReloadGuard` | grants.go:121-138 | lets a catalogue through if and only if every gated tool's ceiling plus the skew is within what the bucket remembers |
| `Approvals.SizeBucket` | grants.go:61-88 | a bucket created for a catalogue covers it, and lives for the longest ceiling plus the skew, or an hour where nothing is gated |
| `Approvals.Bucket.Spend` | internal/replay/jetstream.go:81-101 | succeeds only where the key was absent and then records it; a spent id is refused unchanged; a lost answer may or may not have recorded |
| `Approvals.Verify` | internal/grants/verify.go:157-215 | a gated call passes only if the claims' shape and material values are right, the id is there, the age at judging is within ceiling and skew, and the record is new; with all of these and the bucket reachable it does pass; anything wrong is found before anything is consumed, and each refusal has its one cause |
| `Approvals.AUseIsStillRecorded` | grants.go:61-88 | a create that lands in time finds the record of any earlier use of its approval, reloads between judging and creating included |
| `Approvals.NextKeepsInv` | internal/reload/reload.go:300-308 | every step of every replica, judging by any generation a request in flight still holds and creating apart, the clock, expiry and guarded reloads keep each approval used at most once and recorded for as long as it matters |
| `Approvals.ReplayIsARun` | internal/grants/verify.go:189-202 | where the condition fails there is a run in which one approval lets a tool run twice |
| `Approvals.OneApprovalOneExecution` | internal/grants/verify.go:157-215 | in every run no approval lets a gated resolver run twice, if and only if a record outlives the age the bucket reports by more than a create lags behind its judgement, or that age admits no gated tool |
| `Approvals.APassIsJudgeThenCreate` | internal/grants/verify.go:189-202 | a verification that passes is the run's judging step followed, after whatever others do, by its creating step |
| `Recorder.Buffer.Record` | internal/record/jetstream/recorder.go:197-244 | takes an event if and only if not closed and below the ceiling, and wakes the flusher if and only if something is ready; what is held is then `Accepted` |
| `Recorder.Buffer.SealAll` | internal/record/jetstream/recorder.go:294-303 | every open batch is queued once, behind what was ready, and none is left open |
| `Recorder.Buffer.TakeReady` | internal/record/jetstream/recorder.go:305-317 | the oldest ready batch is taken, or nothing |
| `Recorder.Buffer.Settle` | internal/record/jetstream/recorder.go:319-344 | an attempt, however it ended, stops counting its events as buffered |
| `Recorder.Buffer.BeginClose` | internal/record/jetstream/recorder.go:353-370 | only the first Close closes |
| `Recorder.GrownIsBounded` | internal/record/jetstream/recorder.go:211-237 | the batch an event lands in holds one subject, its tracked bytes are its framing, and it is within both bounds unless it is that one event |
| `Recorder.SealedExactlyWhenFull` | internal/record/jetstream/recorder.go:223-236 | an event seals its subject's batch if and only if the batch with the event would pass either bound |
| `Recorder.FramedIsTheField` | internal/record/jetstream/recorder.go:256-262 | an event counts as exactly the bytes of the one well-formed field that carries it |
| `Recorder.AcceptConserves` | internal/record/jetstream/recorder.go:211-237 | accepting an event adds that event and no other to what is held, sealing or not |
| `Recorder.AcceptInOrder` | internal/record/jetstream/recorder.go:211-237 | accepting keeps the record order of every subject across open, ready and attempted |
| `Recorder.SealInOrder` | internal/record/jetstream/recorder.go:294-303 | sealing in any order of subjects keeps the order within each |
| `Recorder.NextKeepsInv` | internal/record/jetstream/recorder.go:197-344 | every step of callers, flusher and closer keeps the four invariants |
| `Recorder.EveryRunKeepsInv` | internal/record/jetstream/recorder.go:197-344 | in every reachable state each recorded event is in exactly one of open, ready, in flight, published and fallback, the count is exact and within its ceiling, batches are within bounds, and per subject the record order is the attempt order |
| `Recorder.NothingLeftAfterClose` | internal/record/jetstream/recorder.go:353-370 | when the first Close has returned nothing is buffered and every event recorded before or since was published or fell back |
| `Chain.UnimplementedGovernance` | internal/toolplane/tooldef.go:76-178 | lists something missing if and only if some supervision the tool declares is one this deployment does not apply |
| `Chain.Call.Gates` | internal/toolplane/core.go:530-637 | the first step that does not say yes stops the call, with its own error and outcome; passing leaves every declared gate behind in order; being stopped runs nothing and writes no row |
| `Chain.Call.WriteIntent` | internal/toolplane/core.go:694-707 | a fail_closed tool goes on only with its intent written under the call's id |
| `Chain.Call.Act` | internal/toolplane/core.go:639-682 | the resolver runs at once and once, ok means no error, and a message comes back only if step 8 finished on it |
| `Chain.Call.Close` | internal/toolplane/core.go:808-820 | closing hands the recorder the row, then notifies unless the recorder panicked, then writes the audit row, each once and in order |
| `Chain.Call.Invoke` | internal/toolplane/core.go:446-682 | whatever the steps do, panics included: no step comes twice or out of order; the resolver runs if and only if every step asked before it says yes, the tool's visibility among them; a message is answered if and only if every step lets it through; the recorder is handed one row and it says ok if and only if no error is returned; an audit row agrees with it |
| `Chain.ComesTo` | internal/toolplane/core.go:446-682 | what a call comes to is stopped if and only if some step asked does not say yes, and is a message if and only if every step lets it through |
| `Chain.RefusalsSay` | internal/toolplane/core.go:538-545 | an invisible tool and a card withheld whole come to the same answer; a tool's refusal is a denial, its failure and a panic are errors |
| `Chain.CloseRecords` | internal/toolplane/core.go:715-724 | after closing, the row and any audit row carry the call's id and outcome, and nothing has run that was not behind its gates |
| `Reload.Store.Sweep` | internal/catalogue/store.go:191-207 | what is retained is the newest few that were loaded recently enough, in order |
| `Reload.RecentIsASelection` | internal/catalogue/store.go:195-206 | the compaction keeps exactly the generations loaded after the cut |
| `Reload.Store.Install` | internal/catalogue/store.go:123-161 | a load that fails or is over the ceiling changes nothing, bytes already served keep the generation, and otherwise the new one is current and the old one retired |
| `Reload.HeldExactly` | internal/catalogue/store.go:123-207 | in every run of swaps and sweeps, of all generations ever superseded exactly the newest few that were loaded less than a TTL ago are held, in order |
| `Reload.RetentionAsDocumented` | internal/catalogue/store.go:58-63 | what is held is never more than documented, and the two rules agree on a generation except from a TTL after it was loaded until a TTL after it was superseded |
| `Reload.DroppedWhenSuperseded` | internal/catalogue/store.go:191-207 | a generation that served for a TTL is dropped by the swap, to other bytes, that supersedes it, and the documented rule would keep it |
| `Reload.Poller.Once` | internal/reload/reload.go:187-372 | one poll reads at most once and is the step `Polled` |
| `Reload.OnlyVettedBytesSwap` | internal/reload/reload.go:187-372 | Kept and Unchanged change neither the current generation, what is retained, the chain nor the taxonomy; a swap is to bytes read now, or held under this ETag, that load, compile a taxonomy, are admitted, can be governed and are within the ceiling, each said of those very bytes in this poll |
| `Reload.SwapsExactly` | internal/reload/reload.go:187-372 | a poll reads if and only if it sees an object it neither serves nor remembers refusing, and swaps if and only if there are bytes to judge, of another digest, of which every check says yes; refusals are remembered with their bytes, unreadable objects are not |
| `Reload.AlwaysServingWhatLoads` | internal/reload/reload.go:310-372 | after every poll of every run what serves loads and is within the ceiling, and the fallback taxonomy is its own |
| `Reload.HeldBytesWereRead` | internal/reload/reload.go:379-384 | a remembered refusal is of bytes read under its ETag, with no other object seen since |
| `Reload.WhatServesWasVetted` | internal/reload/reload.go:187-372 | after any polls what serves is what was booted, or bytes read from the source and vetted as read in the poll that swapped them in |
| `Reload.ARefusalIsNotReadAgain` | internal/reload/reload.go:206-229 | a remembered refusal is not read again while polls see that ETag or nothing |
| `Planes.Handler.PlaneFor` | internal/serve/plane.go:53-91 | the chain returned is for the generation asked about, and an older one never replaces what is published |
| `Planes.MoveKeeps` | internal/serve/plane.go:53-91 | loading, comparing and storing the published chain apart, a comparison made under the build lock is still true when it is acted on, so a store never goes back |
| `Planes.NextKeeps` | internal/serve/plane.go:53-125 | every step of every thread, of a swap and of the verifier's own taxonomy keeps the invariant |
| `Planes.OneGenerationPerRequest` | internal/serve/serve.go:134-168 | in every interleaving of requests, swaps, Check, Prepare and changes of the verifier's own taxonomy, a request's chain is for the generation it read and its fold reads that generation's registry, no unserved generation's chain is published, and the published load time never decreases |
| `Reconciler.Listen` | internal/serve/reconcile.go:96-140 | the reply loop accumulates the tally `HearAll` defines |
| `Reconciler.Standing` | internal/serve/reconcile.go:159-177 | the verdicts kept are exactly those the round neither replaces nor may clear |
| `Reconciler.Sweeper.Sweep` | internal/serve/reconcile.go:73-209 | a sweep is `Swept`, and a discovery that failed changes nothing |
| `Reconciler.HearAllExactly` | internal/serve/reconcile.go:103-140 | a package is condemned if and only if some heard instance mismatches it, whatever the order of replies; only its recorded carrier is the last one heard |
| `Reconciler.SweepExactly` | internal/serve/reconcile.go:111-184 | a package is quarantined after a sweep if and only if some heard instance did not advertise the hash pinned for it, or it was before and the round may not clear it; it is seen if and only if it was heard, or was seen and the round was failed or short |
| `Reconciler.AVerdictIsClearedByEvidence` | internal/transport/transport.go:126-136 | over any sequence of sweeps a verdict that is gone was cleared in a full enumeration with no mismatch heard and its recorded carrier not partial |
| `KeySet.Cache.Get` | internal/authn/jwks.go:123-148 | a lookup is the step `Lookup` |
| `KeySet.Cache.Refresh` | internal/authn/jwks.go:150-202 | a failed refresh leaves the set and its age alone and still counts as an attempt |
| `KeySet.AnsweredFromTheSetHeld` | internal/authn/jwks.go:123-148 | the issuer is asked if and only if the set is stale, or lacks the key and the cooldown has passed; a key is found if and only if the set held afterwards has it |
| `KeySet.HeldIsLatest` | internal/authn/jwks.go:150-202 | in every history what is held is the latest successful fetch, whatever failed since |
| `KeySet.ServedFromAFreshFetch` | internal/authn/jwks.go:123-148 | a key served is of the latest successful fetch, which is younger than the TTL or was made in this call |
| `KeySet.AttemptsAreSpaced` | internal/authn/jwks.go:123-148 | an attempt made against a fresh set starts at least one cooldown after every attempt before it started |
| `KeySet.UnknownKeysAreRateLimited` | internal/authn/jwks.go:123-148 | in a fresh window the fetches number at most one more than the cooldowns that fit in it |
| `UnknownFields.EnumsFromUnknown` | internal/catalogue/audience.go:178-223 | the buffer loop returns what `Decode` reads, or nothing |
| `UnknownFields.ReadField` | internal/catalogue/audience.go:182-219 | one field is consumed by its tag, skipped, read alone or unpacked |
| `UnknownFields.UnpackAll` | internal/catalogue/audience.go:202-215 | a packed run is read to its end or not at all |
| `UnknownFields.PayloadReads` | internal/catalogue/audience.go:187-193 | a well-formed value of any wire type, groups included, is skipped exactly |
| `UnknownFields.DecodingReadsWhatWasWritten` | internal/catalogue/audience.go:178-223 | whatever fields are interleaved and however each occurrence is written, the wanted field's values come back in order, and nothing at all if what follows does not parse |
| `UnknownFields.DecodingIsExact` | internal/catalogue/audience.go:178-223 | bytes read as these numbers if and only if they are some sequence of well-formed fields whose wanted values are these |
| `UnknownFields.EnumNumberExactly` | internal/catalogue/audience.go:195-215 | a varint reads as the one 32-bit signed number that agrees with it in the low 32 bits |
| `UnknownFields.EnumsRoundTrip` | internal/catalogue/audience.go:195-215 | every enum number, negative ones sign-extended, is read back as itself |
| `UnknownFields.EncodeVarintIsVarint` | internal/catalogue/audience.go:195-201 | the minimal encoding of every 64-bit value is one the reader takes as that value |

## Left out

- Messages are values: the walk returns rewritten trees. Aliasing between a message and the list elements cloned out
  of it, and writing a list back only when it shrank, are not captured.
- Message-valued maps of cards, which the walk skips: a field the walk does not descend into is part of a message's
  opaque body.
- The NATS, JetStream, S3 and HTTP clients and the scatter-gather of a discovery round: they are what the steps of the
  runs may do.
- JOSE parsing and signatures, JSON decoding and digests: a token or a body is what parsing it comes to.
- Compiling plans and compartment registries, and the field plan half of step 8: another module of the system.
- protovalidate and CEL: validation is a step that passes, refuses or panics.
- The claim checks of an approval other than its age and its id: answers that all must be yes.
- Authority.Fold: does not copy the tenant, token id and execution of the outermost claims, which nothing here decides
  by.
- Chain.Call.Close: says the recorder was called, not that it kept the row; what becomes of a row is `Recorder`.
- Error text, status mapping, log lines, report throttling and banners: each is settled by reading one branch. Which of
  the three floors a card violation is named after is carried along and nothing is proved of it.
- Schema descriptions and scalar type names, and the schema cache: only which paths are present is modelled.
- The output schema: it is the same rendering over what a caller may read.
- The conformance runner, the slog and memory recorders, issuer metadata and heap measurement: only easy members.
- Reload.Poller.Once: building a chain is a yes or no here; how it is built and published among requests is
  `Planes`.
