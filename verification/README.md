# A model of the SPEAR client's stateful cores

Dafny proofs about the parts of the client that keep state across calls or
have to agree with something else:

- **Workspace knowledge** (`KnowledgeModel`, `KnowledgeRules`, `KnowledgeLaws`,
  `KnowledgeStore`, `Consolidation`, `MergeReach`, `MergeConflicts`, `SharedKnowledge`): a versioned record
  store in two layers, its lifecycle operations, its checks against the working
  tree, and the merge of one user's store into the team's; then the system of
  several users, their images and the team, with every interleaving of their
  steps.
- **The context allocator** (`ContextItems`, `ContextEviction`,
  `ContextTruncation`, `ContextEngine`) and **the selector**
  (`ContextSelection`, `SharedIds`, over the stable sort of `Sorting`).
- **The agent loop** (`AgentDispatch`, `AgentBatch`, `AgentLoop`, `AgentRuns`):
  one user turn, from the contract of its tools to its last message, with the
  trace of host calls.
- **Parsers and printers**: the brace scanner and the bare-JSON call parser
  (`JsonScanner`, `ReplyEdits`), the skill files and their index (`SkillFile`,
  `SkillRoundTrip`, `SkillLibrary`, `SkillDescriptions`, `SkillEdits`,
  `SkillReconcile`, over `Strings`).
- **Smaller cores**: rank fusion and packing (`RankFusion`,
  `RetrievedContext`), the read and write staleness state (`ReadTracker`), and
  the history a turn may be answered from (`AnswerScope`).

Objects the source updates in place are classes whose methods are proved
against functions on values; the theorems are lemmas about those functions.
Where the source loops, the method loops. What the model cannot see - the
model's replies, the host, the guardrails, regular-expression vocabularies,
digests, clocks, fresh ids, JSON decoding - is a parameter, mostly a function
stored in a datatype, and nothing is claimed of it beyond the `Sane` predicates
that say what the string, JSON and number libraries do.

`dafny verify dfyconfig.toml` checks everything.

## Where code and documentation differ

The model follows the code. Each of these is a lemma:

- `consolidate` says nothing that disagrees is merged (`workspace_knowledge.py:613`).
  A batch is compared with the common store as it was, never with itself, and
  an update with its own history only. What is merged agrees exactly when no two
  written records contradict each other and no update contradicts an active
  record left as it was (`ConsolidationIsSafeIff`; `UpdateIsSafeIff` and
  `AddingBatchIsSafeIff` for one update and for additions;
  `AdditionsMayContradict`, `UpdateMayContradict`).
- A tool record's result is documented as exactly what the model reads
  (`host.py:36`). The guardrails append to it after it was recorded, or put a
  stub in its place (`tool_guardrails.py:757`): `ReadsWhatWasRecordedIff`.
- Arguments of blanks only pass the validity check (`loop.py:227`) and raise when
  the batch parses them (`loop.py:274`): `OnlyBlanksSlipThrough`, and over whole
  runs `RaisesIffBlankReached` and `TranscriptIsAnsweredIff`.
- The loop ends on prompts of half of what the output limit leaves of the window
  (`loop.py:156`). With a limit two or more above the window that is below
  nothing and the first reply that reports its size ends the run
  (`CompressAtSign`, `EndsAtFirstReplyIff`); the client knows this and gives a
  small window a quarter of itself (`ClientKeepsTheBound`).
- Truncation meets its target for every target with two characters a token or
  more; with one, not at target 1 (`TruncateFits`).
- A group is ranked for eviction as its least valuable member, on each count,
  where the comment says its most valuable (`context_engine.py:380`): lower ranks
  go first and the code takes the minimum (`RankIsLeastWorth`,
  `LeastMemberDecides`).
- The selector promises that every decision carries its reason
  (`context_selection.py:19`) and drops by id. Items that share an id with one
  that goes are left out without a decision unless they go themselves
  (`OneDecisionEachIff`, `KeptIff`). Two rule files that differ only in their
  numbers do share one (`TwoRulesOneId`). A mandatory item would go the same way
  (`SharedIdDropsMandatory`); the ids the client gives rule that out
  (`ClientKeepsMandatory`).
- The retrieved text can exceed `MAX_CONTEXT_CHARS` by its separators
  (`ReturnedFitsIff`, `AllReturnedFitIff`, `BudgetCanBeOverrun`).
- The messages for a third and fourth read of a region say its content has not
  changed. Had it not, the read would have been answered as unchanged: it is
  counted exactly when the file was written since (`RepeatsWereWritten`,
  `RepeatedIffWritten`).
- A save is meant not to widen a skill an operator narrowed
  (`skill_library.py:300`). A printed skill is widened exactly when its
  description holds a closing fence or a further line that cannot be read
  (`ScopeSurvivesIff`, `OneBreakKeepsIff`). The caller takes newlines out of a
  description (`tool_handlers.py:874`) and no other line break, so one with a
  line separator gets there (`LineSeparatorWidens`). Over a file of any text, a
  save with a description of one line keeps the scope exactly when none of its
  values has blanks inside its quotes (`AnyScopeSurvivesIff`).
- Normalising a name twice is not normalising it once (`NormalizedAgainIff`).
- An index is kept by the digests of documents, so the scope and requirements
  beside a document can be out of date (`EntryIsTheSkillsIff`,
  `EditedScopeIsMissed`). Two files that declare one name and differ never settle
  (`ReconciledAgreesIff`, `TwoFilesTakeTurns`).
- An earlier turn is withheld for what its own words name, not for the scope it
  was answered in: a follow-up that only points back is carried
  (`WithheldForWhatItWasAboutIff`).

## Model

| member | source | states |
|---|---|---|
| KnowledgeStore.KnowledgeStore.WriteRecord | client/context/workspace_knowledge.py:312-331 | a write leaves the common tables alone, copies the history served so far the first time it touches a common record, and adds exactly one version; a legal next or first version keeps the store valid |
| KnowledgeStore.KnowledgeStore.Add | client/context/workspace_knowledge.py:340-399 | refuses what is not a lasting fact, gives back an active or proposed record that already says the same, else creates one; a new record, and it alone, is then in the view: of the draft's kind, subject, squeezed statement, sources and paths, in the state its provenance allows |
| KnowledgeStore.KnowledgeStore.FindDuplicate | client/context/workspace_knowledge.py:401-413 | finds a record exactly when an active or proposed record of the merged view says the same thing on the same sources |
| KnowledgeStore.KnowledgeStore.Accept | client/context/workspace_knowledge.py:424-436 | only a proposed record of this workspace can be accepted; the view then holds its next version, active and user-confirmed, nothing else changed |
| KnowledgeStore.KnowledgeStore.Amend | client/context/workspace_knowledge.py:438-457 | anything not revoked can be amended; the view then holds its next version, which says what the operator wrote, is user-confirmed and rests on no source |
| KnowledgeStore.KnowledgeStore.Revoke | client/context/workspace_knowledge.py:459-466 | any record of the workspace can be revoked, a common one too, without touching the common tables; the view then holds its next version, revoked, for the reason given |
| KnowledgeStore.KnowledgeStore.Purge | client/context/workspace_knowledge.py:468-479 | deletes exactly this workspace's local rows and their histories, and counts the rows |
| KnowledgeStore.KnowledgeStore.List | client/context/workspace_knowledge.py:498-511 | the merged view, filtered by lifecycle after the merge, each record once, oldest first |
| KnowledgeStore.KnowledgeStore.ValidateFiles | client/context/workspace_knowledge.py:530-557 | the loop with its digest cache writes exactly the stale versions of the active records whose files changed |
| KnowledgeStore.KnowledgeStore.Revalidate | client/context/workspace_knowledge.py:559-590 | restores exactly the stale records all of whose quotes are found again, bound to the files as they are |
| KnowledgeStore.KnowledgeStore.Rebind | client/context/workspace_knowledge.py:564-581 | gives up at the first source whose evidence is gone, else gives every source bound again |
| KnowledgeModel.CopiesWhatWasServed | client/context/workspace_knowledge.py:312-331 | a write keeps, as local versions, the whole history that was served before it |
| KnowledgeModel.ServedIsChain | client/context/workspace_knowledge.py:513-518 | the history a reader is served is exactly the legal versions 1..n ending in the record served |
| KnowledgeModel.SeenUnderItsName | client/context/workspace_knowledge.py:483-496 | a record is only ever served under its own id and to its own workspace |
| KnowledgeModel.WriteAllPreserves | client/context/workspace_knowledge.py:312-331 | any set of legal next versions, of any number of records, keeps a store valid |
| KnowledgeModel.StepKeepsIdentity | client/context/workspace_knowledge.py:424-590 | no legal change alters what a record is about, and none leads out of a revocation |
| KnowledgeRules.GetReadsView | client/context/workspace_knowledge.py:483-488 | looking up local then common reads the one merged map |
| KnowledgeLaws.WritesUpdateTheView | client/context/workspace_knowledge.py:295-331 | writes change the merged view at exactly the ids written, and change no other workspace's view |
| KnowledgeLaws.WriteAppendsOneVersion | client/context/workspace_knowledge.py:312-331 | of every record's served history a write appends one version to its own and changes no other |
| KnowledgeLaws.PurgeRestoresCommon | client/context/workspace_knowledge.py:468-479 | after a purge the workspace sees exactly the common records again; other workspaces see what they saw |
| KnowledgeLaws.PurgeKeepsValid | client/context/workspace_knowledge.py:468-479 | a purge keeps a store valid |
| KnowledgeLaws.ChecksKeepValid | client/context/workspace_knowledge.py:530-590 | validate and revalidate keep a store valid |
| KnowledgeLaws.MarkingIsExact | client/context/workspace_knowledge.py:535-555 | after marking, a record is active exactly when it was and every file source is current; marking again marks nothing |
| KnowledgeLaws.ValidateAgreesWithTheFiles | client/context/workspace_knowledge.py:530-557 | after validate every active record's file sources match the current digests, and a second validate over the same tree marks nothing |
| KnowledgeLaws.RestoringIsSupported | client/context/workspace_knowledge.py:559-588 | what revalidate restores has every quote in its file and every digest current |
| KnowledgeLaws.RevalidatedStaysActive | client/context/workspace_knowledge.py:530-590 | a record revalidate restored survives an immediate validate |
| KnowledgeLaws.MarkedIffFilesDiffer | client/context/workspace_knowledge.py:530-557 | validate marks exactly the active records that name a file which is gone or whose digest is another, and changes nothing but their lifecycle |
| KnowledgeLaws.MarkedForTheFiles | client/context/workspace_knowledge.py:549-555 | the reason written names exactly those files, and says gone where one is missing or has no digest, else changed |
| KnowledgeLaws.RestoredIffQuoted | client/context/workspace_knowledge.py:559-590 | revalidate restores exactly the stale records that rest on something and all of whose file sources still hold their quotes; they are bound to the files as they now read, and claim what they did |
| KnowledgeLaws.ReboundIff | client/context/workspace_knowledge.py:564-581 | sources are bound again exactly when every file among them still holds its quote, each to the file as it now reads |
| KnowledgeLaws.EvidenceIff | client/context/workspace_knowledge.py:198-235 | evidence is found exactly where the quotation is in a file not outside the root, and gives the file and its digest |
| KnowledgeLaws.AcceptShows | client/context/workspace_knowledge.py:424-436 | an acceptance finds nothing exactly where the view holds nothing; one that succeeds shows the record active and user-confirmed in the view, at its next version, all else as it was |
| KnowledgeLaws.AmendShows | client/context/workspace_knowledge.py:438-457 | an amendment that succeeds shows the operator's words in the view, user-confirmed and on no source, all else as it was; it finds nothing, or something revoked, exactly where that is in the view |
| KnowledgeLaws.RevokeShows | client/context/workspace_knowledge.py:459-466 | a revocation fails exactly for what the view does not hold; else the view shows the record revoked, for the reason given, all else it claims as it was |
| KnowledgeLaws.SameSourcesIff | client/context/workspace_knowledge.py:401-413 | two records rest on the same sources exactly when they name the same ones equally often, in whatever order, at whatever line and with whatever quotation |
| KnowledgeRules.AcceptedFollows | client/context/workspace_knowledge.py:424-436 | an acceptance is the next version of what was served, active and user-confirmed |
| KnowledgeRules.AmendedFollows | client/context/workspace_knowledge.py:438-457 | an amendment is the next version of what was served, user-confirmed and without sources |
| KnowledgeRules.WithdrawnFollows | client/context/workspace_knowledge.py:459-466 | a revocation is the next version of what was served, nothing else changed |
| KnowledgeRules.OperatorMayIff | client/context/workspace_knowledge.py:424-466 | what the operator may do to a record depends on what is served of it alone: accept a proposal, amend what is not revoked to one fact, revoke anything |
| KnowledgeRules.CreatedIsInitial | client/context/workspace_knowledge.py:376-395 | a created record is at version 1, and active only where its provenance vouches for it |
| KnowledgeRules.CreatedSays | client/context/workspace_knowledge.py:376-395 | a created record says what its draft says: kind, subject or the start of the statement, squeezed statement, sources, paths, tags; none is created only for a project source without a digested file |
| KnowledgeRules.RefusedIff | client/context/workspace_knowledge.py:340-364 | a draft is taken on exactly when it names a workspace and gives one lasting fact, neither empty nor too long, under a subject that is not too long |
| KnowledgeStore.ConsolidateStores | client/context/workspace_knowledge.py:606-628 | decides every record of every named workspace, each against the common store as it is |
| KnowledgeStore.ApplyConsolidation | client/context/workspace_knowledge.py:677-706 | writes the decided records, history included, in order, and counts them |
| KnowledgeStore.CountIs | client/context/workspace_knowledge.py:677-706 | the number it gives back is that of the additions, updates and revocations decided |
| Consolidation.SpliceIsChain | client/context/workspace_knowledge.py:665-700 | where the user's history holds the common store's current body, the two histories splice into one legal history, strictly longer; a revoked end stays revoked |
| Consolidation.RevokedForGood | client/context/workspace_knowledge.py:424-466 | along a legal history nothing follows a revocation but revocations |
| Consolidation.GraftKeepsCommon | client/context/workspace_knowledge.py:683-701 | one merged record keeps the common tables well formed, keeps every version row there was, and undoes no revocation |
| Consolidation.DecisionIsSafe | client/context/workspace_knowledge.py:636-674 | an update or revocation forces the common version to be strictly below the user's; an addition forces the id to be new |
| Consolidation.BatchKeepsCommon | client/context/workspace_knowledge.py:677-706 | the same for a whole batch decided before any of it is written |
| Consolidation.ConsolidationKeepsCommon | client/context/workspace_knowledge.py:606-706 | the same for consolidate followed by apply |
| Consolidation.DecidingAgainIsUnchanged | client/context/workspace_knowledge.py:665-706 | consolidating again reports unchanged for every record the first pass wrote |
| MergeReach.KnownComesThroughIff | client/context/workspace_knowledge.py:606-706 | after a consolidation the team has a user's record of an id it knew, said as the user says it, if and only if it said so before, or the user settled it and some version in the user's history says what the team then said |
| MergeReach.NewComesThroughIff | client/context/workspace_knowledge.py:606-706 | of an id the team did not know it has the user's record if and only if that is active and nobody in the team's workspace says the same or denies it |
| MergeReach.AnswersMean | client/context/workspace_knowledge.py:636-674 | each answer a consolidation gives is said of the two stores alone, in both directions |
| MergeReach.RevocationsReachTheTeam | client/context/workspace_knowledge.py:665-674 | a record the user revoked, whose history holds what the team says of it, is revoked in the team's store afterwards |
| MergeReach.OthersAreUntouched | client/context/workspace_knowledge.py:677-706 | what no consolidated record names stays as it was, history included |
| MergeConflicts.AgreeingAddsNoConflict | client/context/workspace_knowledge.py:655-663 | a record that is in no disagreeing group leaves the groups that disagree as they were |
| MergeConflicts.AddingNeverContradicts | client/context/workspace_knowledge.py:636-706 | applying one addition leaves the conflict groups of every workspace unchanged |
| MergeConflicts.AddingBatchIsSafeIff | client/context/workspace_knowledge.py:606-706 | a consolidation that only adds leaves a workspace's conflicts as they were if and only if no two of its own additions contradict each other |
| MergeConflicts.InConflictIff | client/context/workspace_knowledge.py:709-718 | a record is in a disagreeing group exactly when some active record contradicts it |
| MergeConflicts.UpdateIsSafeIff | client/context/workspace_knowledge.py:665-674 | an update ends in a disagreeing group exactly when another active common record contradicts it |
| MergeConflicts.ConsolidationIsSafeIff | client/context/workspace_knowledge.py:606-706 | for any mix of additions, updates and revocations: a written record ends in a disagreeing group exactly when two written active ones contradict each other or an update contradicts an active one left as it was |
| MergeConflicts.AdditionsMayContradict | client/context/workspace_knowledge.py:606-628 | two new records of one well-formed user store can both be added and contradict each other |
| MergeConflicts.AddedTogether | client/context/workspace_knowledge.py:655-718 | additions each decided against the store as it was leave its conflicts as they were if and only if no two of them contradict each other |
| MergeConflicts.UpdateMayContradict | client/context/workspace_knowledge.py:665-674 | an amendment of one common record that contradicts another is merged, and the contradiction is then in the common store |
| SharedKnowledge.EditKeepsValid | client/context/workspace_knowledge.py:340-590 | every operation of a user or of the team keeps the store it edits valid |
| SharedKnowledge.EditsAreTheCalls | client/context/workspace_knowledge.py:340-590 | an edit of the system leaves exactly the tables the store's own call leaves |
| SharedKnowledge.ImageShowsTheTeam | client/context/workspace_knowledge.py:270-287 | a new image shows its user the team's records as they are, under the user's own, and changes nothing for anybody else |
| SharedKnowledge.EditEvolves | client/context/workspace_knowledge.py:340-590 | no edit but a purge loses a version row, moves a record to another workspace or undoes a revocation |
| SharedKnowledge.EditKeepsRevoked | client/context/workspace_knowledge.py:424-590 | no edit but a purge of its workspace turns a record a reader saw revoked into anything else |
| SharedKnowledge.RunKeepsInv | client/context/workspace_knowledge.py:258-706 | in every reachable system every store is well formed, every id belongs to one workspace across all stores, and every image a user holds is an earlier state of the team's store |
| SharedKnowledge.StartIsOk | client/context/workspace_knowledge.py:270-287 | users and a team that have nothing yet are such a system |
| SharedKnowledge.NoLostUpdates | client/context/workspace_knowledge.py:606-706 | as long as nobody purges the team's own store, under any interleaving of edits, new images and consolidations of several users, the team's histories are exactly versions 1..n with the current record at n, and no version row ever changes |
| SharedKnowledge.CurrentBodiesAreKept | client/context/workspace_knowledge.py:606-706 | every body that was ever current in the team's store can be read in its history ever after |
| SharedKnowledge.RevocationIsAbsorbing | client/context/workspace_knowledge.py:424-706 | what a user saw revoked stays revoked for that user through every edit, new image and consolidation, until that user purges |
| SharedKnowledge.EveryVersionIsEarned | client/context/workspace_knowledge.py:340-457 | at every version an active or stale record is user-confirmed or source-verified, and a proposal is at version 1 |
| SharedKnowledge.ActiveOnlyByTheOperator | client/context/workspace_knowledge.py:72-74 | a record created on a propose-only provenance is active or stale only after an acceptance or amendment in its history |
| SharedKnowledge.NothingActivatesItself | client/context/workspace_knowledge.py:340-706 | both, in every store of every reachable system, through consolidation too |
| ContextItems.TruncateFits | client/context/context_engine.py:69-79 | a truncated text is never empty and estimates to at most its target if and only if the ratio or the target is at least 2 |
| ContextItems.TruncateIsLongest | client/context/context_engine.py:406-418 | with room for the marker, what is kept is the start of the text, marked, and no longer text estimates to the target |
| ContextItems.Normalize | client/context/context_engine.py:337-354 | succeeds exactly when ids are distinct, and then every item has its own estimate or the computed one |
| ContextItems.TiersAreInOrder | client/context/context_engine.py:211-220 | the layers go in the order the table gives them, and stale items before recent before current ones |
| ContextItems.SameGroupIff | client/context/context_engine.py:366-370 | two items are of one group when they name the same one; one that names none is alone, unless another's group is named after its place |
| ContextEviction.EvictableGroups | client/context/context_engine.py:356-390 | lists each group without a protected member exactly once, with its members and its rank |
| ContextEviction.RankIsLeastWorth | client/context/context_engine.py:380-386 | the rank of a group is at most each of its members' on every count, and is its most valuable member's on a count exactly when all agree on it |
| ContextEviction.LeastMemberDecides | client/context/context_engine.py:383-388 | so one member of a tier below all of another group's takes its own group before that one |
| ContextEviction.FirstToGo | client/context/context_engine.py:263-269 | the candidate ranked before every other |
| ContextEviction.Evict | client/context/context_engine.py:260-275 | the loop that ranks anew each pass evicts a set that is closed under "ranked before", that makes the rest fit or is all there is, and no smaller one does |
| ContextEviction.MoreRoomEvictsLess | client/context/context_engine.py:263-275 | a larger limit never evicts a group a smaller one keeps |
| ContextEviction.EvictionIsUnique | client/context/context_engine.py:263-275 | there is only one such set |
| ContextEviction.EvictionIsSortedPrefix | client/context/context_engine.py:263-275 | in any order by tier, priority, freshness and first position it is the shortest prefix that makes the rest fit |
| ContextEviction.EvictionIsShortestStart | client/context/context_engine.py:263-275 | such an order of all unprotected groups exists, sorted once, and what goes is its shortest prefix that makes the rest fit, or all of it |
| ContextEviction.GroupsGoWhole | client/context/context_engine.py:356-390 | two items of a group go or stay together, and one protected item keeps its whole group |
| ContextEviction.GroupmatesStayTogether | client/context/context_engine.py:356-390 | so items that name one group share their fate, and one protected item keeps all of them |
| ContextEviction.AloneWithoutAGroup | client/context/context_engine.py:366-378 | an item that names no group goes or stays by itself |
| ContextEviction.SinglesGo | client/context/context_engine.py:356-390 | of two items of one tier, each alone in its group, the one of lower priority goes first; of equals the staler, then the earlier |
| ContextEviction.WhyLeftOut | client/context/context_engine.py:393-404 | the reason told of an excluded item, by its layer |
| ContextTruncation.OneCut | client/context/context_engine.py:282-311 | with a ratio of at least 2 one cut always saves something: it makes the rest fit, or takes the item to its floor |
| ContextTruncation.Shorten | client/context/context_engine.py:282-315 | the second loop cuts each item at most once, in order of priority, freshness, size and position, all but the last to the floor; the "saves nothing" exit is never taken |
| ContextTruncation.CutFirst | client/context/context_engine.py:290-297 | the item cut next is the one of least priority, then freshness, then the largest, then the first |
| ContextEngine.LayerStatistics | client/context/context_engine.py:421-444 | counts and token sums of every layer, of what is selected and what is excluded |
| ContextEngine.LayersAddUp | client/context/context_engine.py:421-444 | the layers' tokens add up to the total |
| ContextEngine.InOrderSums | client/context/context_engine.py:317-319 | the listed items' tokens are the total the loops compared with the budget |
| ContextEngine.Compose | client/context/context_engine.py:238-335 | the snapshot is the eviction and shortening of the normalised items, in the caller's order, with exact totals; overflow is what the estimate, the output reserve and the safety margin exceed the context limit by |
| ContextEngine.ShorteningKeepsGroups | client/context/context_engine.py:311 | shortening changes only texts and sizes, and only of items it reports |
| ContextEngine.OverflowIsIrreducible | client/context/context_engine.py:277-331 | overflow is reported only when no evictable group remains and every truncatable item with content is at its floor |
| ContextEngine.OrderSurvives | client/context/context_engine.py:317-318 | what is listed stands at rising original positions, and all of it is listed |
| ContextEngine.NoItemIsLost | client/context/context_engine.py:317-318 | every item is selected or excluded, none both |
| ContextSelection.Admit | client/context/context_selection.py:335-341 | refused candidates with their reasons, admitted ones in the given order |
| ContextSelection.Fit | client/context/context_selection.py:416-434 | drops the least number of optional items, taken by rank and then length, whose going makes the optional rest fit |
| ContextSelection.Select | client/context/context_selection.py:328-355 | the selection and its decisions, in their order, from the refusals and the fit |
| ContextSelection.OptionalRestFits | client/context/context_selection.py:416-434 | the optional items kept always fit what the budget leaves |
| ContextSelection.WholeSelectionFits | client/context/context_selection.py:167-175 | when the mandatory tokens cover the mandatory items and fit, the whole selection fits window minus output reservation |
| SharedIds.KeptIff | client/context/context_selection.py:416-434 | an admitted item, mandatory or not, is kept exactly when every optional item of its id fits what is available together with all that would go after it |
| SharedIds.MandatoryIsSafe | client/context/context_selection.py:416-434 | as long as no optional item has the id of a mandatory one, nothing mandatory is dropped |
| SharedIds.ClientKeepsMandatory | client/cli/turn_context.py:505-579 | and among the ids the client gives no optional one has |
| SharedIds.SharedIdDropsMandatory | client/context/context_selection.py:434 | handed such a pair, and no room, the selector leaves nothing |
| ContextSelection.DropOrderIsOptional | client/context/context_selection.py:418-422 | the drop order holds exactly the optional items, lower rank first, longer first on a tie |
| ContextSelection.LowestGoesFirst | client/context/context_selection.py:416-434 | optional items are dropped by lower rank first, and of equals by the longer text |
| ContextSelection.TiesKeepTheirOrder | client/context/context_selection.py:418-422 | optional items of one rank and one length go in the order they were given |
| ContextSelection.NothingGoesIff | client/context/context_selection.py:167-175 | nothing is dropped exactly when the optional items weigh nothing, or fit the window together with the output reservation and the mandatory tokens |
| ContextSelection.WeighsAThird | client/context/context_selection.py:298-302 | an item weighs a third of its characters and one more |
| SharedIds.AllAreToldIff | client/context/context_selection.py:416-434 | every admitted item is kept or told it was dropped, each once, if and only if no id goes in part: where an optional item of an id goes, all of its optional ones do and no mandatory one has it |
| SharedIds.DroppedAreTheFirst | client/context/context_selection.py:418-434 | with ids used once the dropped items are exactly the first of the drop order |
| SharedIds.OneDecisionEachIff | client/context/context_selection.py:328-355 | and every candidate gets exactly one decision, refused, dropped or chosen, if and only if that holds of the admitted |
| SharedIds.OneDecisionEach | client/context/context_selection.py:328-355 | so with ids used once each candidate gets exactly one decision |
| SharedIds.TwoRulesOneId | client/context/context_sources.py:102-104 | two rule files that differ in their numbers have one id: with room for the second alone both are left out, and only the first is told why |
| SharedIds.OnlyANumberGoes | client/context/context_sources.py:102 | a rule file's title is its name without leading digits and the dash behind them, and nothing else goes |
| AgentDispatch.CheckContract | client/agent/dispatch.py:188-208 | reports nothing exactly when every offered tool has a handler and every offered argument is read |
| AgentDispatch.ShippedToolsAreExecutable | client/tests/test_tool_contract.py:63-75 | every tool the repository ships can run, declares exactly what its handler reads, and every handler is offered |
| AgentDispatch.Handle | client/agent/dispatch.py:35-165 | each handler first asks the boundary, then has its effect exactly when it is granted; the first refusal, else the tool's own text, is what is recorded |
| AgentDispatch.AskedInOrder | client/agent/dispatch.py:35-165 | whatever a handler asks of the host, it has at most one effect, last, and writes only the path just resolved |
| AgentDispatch.Execute | client/agent/dispatch.py:211-238 | every call ends by being recorded, as refused when the tool is not there or not allowed, else bounded; a file is written for write_file and patch alone, deleted for delete_file alone, a command run for terminal alone, each exactly when the tool is offered, the call authorised and the boundary lets it; the host is asked exactly what that tool needs |
| AgentDispatch.AskedDoes | client/agent/dispatch.py:35-165 | tool by tool, what an offered call asks of the host and does, said of the answers alone |
| AgentDispatch.ExecutedTells | client/agent/dispatch.py:211-238 | what is recorded: refused exactly when the tool is not there or somebody, the sandbox included, refused it; the first refusal, else the tool's text, bounded |
| AgentDispatch.RecordsAreTold | client/agent/dispatch.py:211-238 | over a whole trace the records kept are exactly those the host was told of, in order |
| AgentDispatch.EffectsAreAuthorised | client/agent/dispatch.py:70-165 | over a whole trace every write, deletion and command follows an authorisation of its own call, at most one per call, and is one of that call's tool |
| AgentBatch.Deduplicate | client/agent/loop.py:253-261 | keeps, in the order given, exactly the calls whose key no earlier one has |
| AgentBatch.FirstsRunOnce | client/agent/loop.py:253-263 | no two kept calls have the same name and canonical arguments, and no key is lost |
| AgentBatch.FirstsAreInOrder | client/agent/loop.py:253-261 | what is kept stands at rising places of the batch, and those are the places whose key comes first there |
| AgentBatch.KeysAlikeIff | client/agent/loop.py:62-67 | two calls are repeats exactly when they name one tool and their arguments read as one compact text; no text and unreadable text read as the empty object |
| AgentBatch.KeptIs | client/agent/loop.py:91-100 | the assistant's turn keeps every call under its id and name, an empty text written out, which is the same call to the batch |
| AgentBatch.GuardedIs | client/agent/loop.py:103-129 | what the model reads of a result: the stub or the result, the guidance of a warning or a halt, a standing halt's, the notice; and whether the turn ends |
| AgentBatch.AnsweredAppends | client/agent/loop.py:70-100 | a transcript in which every assistant message is answered at once can be continued exactly by another such |
| AgentBatch.ReadsWhatWasRecordedIff | client/agent/loop.py:103-129 | the model reads exactly what was recorded if and only if no stub stands in for it and the guardrails append nothing, or the stub and what they append spell it |
| AgentBatch.RunBatch | client/agent/loop.py:267-299 | each call is polled for, and answered without running exactly when cancelled; a blocked call is recorded and has no effect; the batch raises exactly at the first call whose text cannot be read |
| AgentLoop.FindInvalid | client/agent/loop.py:222-231 | the ids of the calls whose non-blank arguments do not parse; none exactly when all parse |
| AgentLoop.Reject | client/agent/loop.py:242-246 | the loop over the calls computes the rejections |
| AgentLoop.RejectionsSay | client/agent/loop.py:242-246 | one tool message per call, in order, under its own name and id, saying that its text could not be read, or else that another's could not |
| AgentLoop.Run | client/agent/loop.py:132-328 | a run is a sequence of rounds, each of them what the code makes of its reply after the rounds before it, ended for exactly one reason; a contract error comes before any model call |
| AgentRuns.TranscriptIsAnsweredIff | client/agent/loop.py:221-301 | after any run every assistant message with calls is followed at once by exactly their answers, same ids, same order, if and only if no reply the run read, none of its calls invalid, keeps an uncancelled call with non-empty blank arguments |
| AgentRuns.AnsweredUnlessRaised | client/agent/loop.py:221-301 | whatever the JSON reader does, the transcript is answered if and only if the run was not left by an error |
| AgentRuns.OpeningIsAnswered | client/agent/loop.py:145-146 | the opening messages are such a transcript |
| AgentRuns.RunIsAudited | client/agent/loop.py:221-301 | over any run, one left by an error included, the records equal the sequence the host was told, and every effect follows an authorisation of its own call, at most one each, and is one of the recorded tool's |
| AgentRuns.NoCallRunsTwice | client/agent/loop.py:253-263 | every batch run is the reply's calls in their order, each key at its first place, none twice and none lost |
| AgentRuns.RoundsAreCounted | client/agent/loop.py:42-47 | the nudges of every run are bounded outright, silent retries by the batches answered between them, and a batch is rejected only after two retries |
| AgentRuns.ProgressOrEnd | client/agent/loop.py:170-328 | a run has at most three rounds for each batch answered and seventeen more, whatever the iteration limit |
| AgentRuns.ModelCallsAreBounded | client/agent/loop.py:162-185 | at most max_iterations + 1 model calls, the extra one only for a bound |
| AgentRuns.OverrunIsOneBatch | client/agent/loop.py:177-178 | before the last batch that ran, after which no round ran one, the records are below max_tool_calls, so the budget is overrun by less than one batch |
| AgentRuns.CallsAreTaken | client/agent/loop.py:195-273 | which round a reply with calls makes, in both directions: dropped when cut at the output limit, asked again twice and rejected at the third when some cannot be read, run otherwise; and what the transcript gains |
| AgentRuns.WordsAreNudged | client/agent/loop.py:195-324 | which nudge a reply without calls draws, in the order they are tried, and that the transcript gains what was said and that nudge |
| AgentRuns.CompletedWhen | client/agent/loop.py:195-328 | a run completes only at a reply without calls that no nudge is left for, and answers with what that reply says |
| AgentRuns.TruncatedWhen | client/agent/loop.py:197-204 | calls cut at the output limit end a run only after four such replies |
| AgentRuns.BoundedWhen | client/agent/loop.py:170-193 | the iteration limit, the tool budget, the prompt bound, a guardrail and a failed model end a run only when reached |
| AgentRuns.ClosesWith | client/agent/loop.py:158-193 | at a bound the model is asked once more for a summary, which is the answer; every other cut leaves the transcript as it was |
| AgentRuns.CompressAtSign | client/agent/loop.py:156 | the bound on a prompt is below nothing exactly when max_tokens is two or more above the window, and off exactly when they are at most one apart or there is no window |
| AgentRuns.EndsAtFirstReplyIff | client/agent/loop.py:170-193 | a run whose first reply reports n prompt tokens is ended there for its size exactly when max_tokens is two or more above the window or n reaches half of what it leaves |
| AgentRuns.ClientKeepsTheBound | client/runtime/agent_core_turn.py:236-244 | with the output limit the client chooses for a window the bound is never below nothing, and is off only for a window of at most one token |
| AgentRuns.OnlyBlanksSlipThrough | client/agent/loop.py:224-231 | the check before a batch lets through unreadable arguments exactly when they are blanks only |
| AgentRuns.RaisesIffBlankReached | client/agent/loop.py:222-274 | a run is left by an error if and only if some reply it read, none of its calls invalid, keeps an uncancelled call with non-empty blank arguments |
| AgentRuns.OneBlankCallRaises | client/agent/loop.py:222-274 | every run whose first reply, read and not cancelled, is one call with non-empty blank arguments is left by an error with the call unanswered |
| JsonScanner.ScanFrom | client/cli/reply_edits.py:194-221 | the index-and-flag loop computes the length of the scan |
| JsonScanner.ScanInvertsPrint | client/cli/reply_edits.py:194-221 | for every JSON object as RFC 8259 lets it be written and every suffix, the scan from its first character stops exactly at its end |
| JsonScanner.OverValue | client/cli/reply_edits.py:194-221 | inside an object the scan passes over any value and is back where it was |
| ReplyEdits.ReadsIffMatches | client/cli/reply_edits.py:179 | where repetitions are followed by text outside their class, reading without going back finds every match and only matches |
| ReplyEdits.HeadIsTheMatch | client/cli/reply_edits.py:179 | so the reading of the call pattern is the pattern's own meaning |
| ReplyEdits.HeadSpells | client/cli/reply_edits.py:179 | whatever is taken for a call opens an object, names a tool and goes on to its arguments, spelled out, with nothing but blanks between |
| ReplyEdits.ParseCalls | client/cli/reply_edits.py:182-238 | the outer loop terminates and collects the kept texts and the calls of the cut reply |
| ReplyEdits.PartsAreTheText | client/cli/reply_edits.py:187-238 | kept pieces and removed calls, in order, are the reply: nothing is lost or moved |
| ReplyEdits.RemovedAreCalls | client/cli/reply_edits.py:223-236 | only what decodes to a call is removed, and it decodes to that call |
| ReplyEdits.CallObjectIsHead | client/cli/reply_edits.py:179 | every printed object that names a tool and then gives its arguments is found by the pattern, whatever follows it |
| ReplyEdits.PrintedCallsAreRecovered | client/cli/reply_edits.py:182-238 | prose without opening braces with calls printed into it gives exactly those calls, in order, and exactly that prose |
| SkillFile.NormalizedAgainIff | client/context/skill_library.py:96-97 | a normalised name normalises to itself exactly when it was not cut right after a dash |
| SkillFile.NormalizedIs | client/context/skill_library.py:96-97 | a normalised name holds letters, digits and dashes alone, starts with no dash and has at most sixty characters; its letters and digits are the name's in lower case, in order, the first of them where it was cut |
| SkillFile.GoodNameStays | client/context/skill_library.py:96-97 | a lower-case name of those characters, without outer dashes and within the bound, stays as it is |
| SkillFile.WrittenSo | client/context/skill_library.py:177-199 | the file printed of a skill, line by line, each field where it is stated |
| SkillRoundTrip.ListIsReadBack | client/context/skill_library.py:100-110 | a printed list of values without commas and outer quotes is read back as it was, brackets in its values and all |
| SkillRoundTrip.RenderedIsParsed | client/context/skill_library.py:113-199 | the printed frontmatter is closed at its own fence and read back line by line |
| SkillRoundTrip.RoundTrip | client/context/skill_library.py:146-199 | the file printed from a well-formed skill reads back as that skill, its body trimmed |
| SkillLibrary.ReadFrontmatter | client/context/skill_library.py:113-143 | the loop over the block's lines gives up at the first line it cannot read and then returns the whole text |
| SkillLibrary.RenderSkill | client/context/skill_library.py:177-199 | the loops that build the lines print what the skill states |
| SkillLibrary.SkillDirectory.Save | client/context/skill_library.py:294-339 | without a name or a content nothing is written; else exactly one file is, from the request and the file before it as text mode reads it |
| SkillLibrary.SavesEstablish | client/context/skill_library.py:294-339 | over any run of well-formed saves of one name the version counts them, created is the first stamp, and scope, requirements and description change only when a save states them |
| SkillLibrary.SaveKeeps | client/context/skill_library.py:298-301 | a save over the file of any well-formed skill keeps whatever it does not state |
| SkillEdits.AnyScopeSurvivesIff | client/context/skill_library.py:298-321 | over a file of any text a save that states no scope writes the scope that was read, and the next read gives the same if and only if no value of it kept blanks inside its quotes; else those blanks go, and a scope of nothing else becomes any |
| SkillEdits.FileReads | client/context/skill_library.py:113-143 | whatever the file, what is read has distinct lower-case keys and one-line values bare of outer blanks |
| SkillEdits.PrintedIsRead | client/context/skill_library.py:177-199 | what such a save prints is read back line by line, up to a further key that starts a fence, if there is one |
| SkillRoundTrip.FileIsRead | client/context/skill_library.py:311-314 | read in text mode, a printed skill differs at the ends of its body's lines alone |
| SkillDescriptions.OwnBodyIffReads | client/context/skill_library.py:113-143 | whatever the description, the file falls into its own block and body if and only if the description holds no closing fence and each of its lines but the first can be read |
| SkillDescriptions.ReadsKeeps | client/context/skill_library.py:146-199 | and then scope, version, and every requirement, tag, stamp and further field stated are read back |
| SkillDescriptions.ScopeSurvivesIff | client/context/skill_library.py:298-321 | the next save that states no scope keeps a narrowed one if and only if the description, as text mode reads it, is such; else the skill is one for any project |
| SkillDescriptions.OneBreakKeepsIff | client/context/skill_library.py:130-138 | for one line break of any kind in a description, the file keeps everything it stated if and only if the rest is a line that can be read and, after a newline or a carriage return, does not start the closing fence; else it keeps nothing |
| SkillDescriptions.LineSeparatorWidens | client/cli/tool_handlers.py:874 | a line separator, which the caller does not take out, and a line without a colon after it: the next save that states no scope writes the skill back as one for any project |
| SkillReconcile.SkillIndex.Reconcile | client/context/skill_library.py:252-291 | unless two files of one name are both stale, which is refused and changes nothing, the index then holds exactly the names there are; what is stale is written anew, the rest kept; the counts are the numbers of skills not current, of entries without a file and of names not known before |
| SkillReconcile.ReconciledAgreesIff | client/context/skill_library.py:252-291 | afterwards every skill is in the index under the digest of its document, whatever the index was, if and only if no two files of one name differ |
| SkillReconcile.TwoFilesTakeTurns | client/context/skill_library.py:267-282 | where they do, the entry of the one is written over by the other at every reconcile |
| SkillReconcile.EntryIsTheSkillsIff | client/context/skill_library.py:269-282 | an entry has its skill's scope and requirements exactly when it was embedded anew or had them before |
| SkillReconcile.EditedScopeIsMissed | client/context/skill_library.py:269-282 | so an edit of the scope alone leaves the old one beside the document |
| SkillReconcile.LeftAloneIff | client/context/skill_library.py:255-258 | an index is left exactly as it is if and only if it agreed already |
| SkillReconcile.DocumentsAlikeIff | client/context/skill_library.py:76-87 | two skills of one name and one body have one document exactly when their descriptions are the same, and of one description exactly when their bodies are |
| SkillReconcile.EditsAreFound | client/context/skill_library.py:252-282 | an edit of the body or the description makes a skill stale, as long as the digest tells the two documents apart |
| SkillReconcile.EntryTellsItsLists | client/context/skill_library.py:277-280 | the scope and the requirements kept beside a document can be read back from it |
| RankFusion.Fuse | client/cli/corpus_search.py:298-308 | the loops over the lists compute the fused order |
| RankFusion.FusedHoldsEachOnce | client/cli/corpus_search.py:298-308 | the fused order holds every id of the lists, once |
| RankFusion.TallyIsScore | client/cli/corpus_search.py:302-306 | the dictionary of scores holds the sum of the weights of every place of an id |
| RankFusion.HigherPrecedes | client/cli/corpus_search.py:308 | a higher score comes first |
| RankFusion.FusionIsPareto | client/cli/corpus_search.py:298-308 | an id that every list ranking the other puts before it precedes it |
| RankFusion.ConsensusWins | client/cli/corpus_search.py:298-301 | an id two lists rank among their first sixty-one precedes every id only one list ranks, the head of that list included |
| RankFusion.ConsensusReaches | client/cli/corpus_search.py:298-306 | what two lists rank one as deep as the other precedes what one list alone puts at its head down to the sixty-first place, and follows it from the sixty-third on |
| RankFusion.TiesComeAsMet | client/cli/corpus_search.py:302-308 | of two ids with equal scores the one met first, lists taken in turn, comes first |
| RankFusion.OneListIsKept | client/cli/corpus_search.py:566 | one ranking alone comes out as it went in |
| RetrievedContext.RankedIsPooled | client/cli/corpus_search.py:548-564 | whatever is ranked is in the pool, so the lookup while packing cannot fail |
| RetrievedContext.PoolKeepsEachCorpus | client/cli/corpus_search.py:556-562 | corpora of different names keep their own documents whatever ids they share |
| RetrievedContext.OrderIsOfEveryCorpus | client/cli/corpus_search.py:548-566 | what is ordered is exactly what some corpus that did not fail ranks in one of its lists |
| RetrievedContext.OrderIsPareto | client/cli/corpus_search.py:565-567 | of several rankings, what all that rank the other put before it precedes it in the order |
| RetrievedContext.OrderHasConsensus | client/cli/corpus_search.py:565-567 | what two rankings put among their first sixty-one precedes what a single one ranks |
| RetrievedContext.HeadIs | client/cli/corpus_search.py:568-571 | twice as many documents as asked for are looked at, in that order |
| RetrievedContext.TakenIff | client/cli/corpus_search.py:572-579 | a document is taken exactly when it fits with those taken before it |
| RetrievedContext.Retrieve | client/cli/corpus_search.py:543-581 | pool, fuse and pack: the text and the paths of exactly the documents the packing takes |
| RetrievedContext.Pack | client/cli/corpus_search.py:568-581 | the loop takes the documents of the packing and joins them |
| RetrievedContext.ChosenIsMaximal | client/cli/corpus_search.py:568-579 | the packing keeps fused order, stays within the cap, and no skipped document of the scanned head could be added to the final set |
| RetrievedContext.ReturnedFitsIff | client/cli/corpus_search.py:581 | the returned text is within the cap exactly when the documents and the separators between them are |
| RetrievedContext.AllReturnedFitIff | client/cli/corpus_search.py:568-581 | all documents looked at are returned exactly when they are within the cap together, and then the returned text is exactly when there is room for their separators too |
| RetrievedContext.BudgetCanBeOverrun | client/cli/corpus_search.py:574-581 | two documents that fill the cap are both taken and the returned text exceeds it |
| ReadTracker.ReadState.ReadFile | client/agent/tools.py:383-500 | a page known to be unchanged is answered by a stub; a failed read changes nothing; any other is counted and stamps the file, partial or not |
| ReadTracker.ReadState.Invalidate | client/agent/tools.py:176-180 | forgets exactly the pages of one file |
| ReadTracker.ReadState.AfterWrite | client/agent/tools.py:838-845 | an own write stamps the file as fully read and forgets its pages |
| ReadTracker.ReadState.Write | client/agent/tools.py:858-991 | a write refused for its content draws no warning; else the warning is taken from the state before the write; one that is refused or fails changes nothing |
| ReadTracker.SecondCheckAddsNothing | client/agent/tools.py:819-835 | over any run the two stamps of a file agree, so the second check warns only where the first does |
| ReadTracker.WarnsIffDue | client/agent/tools.py:142-167 | over any run of reads, own and outside writes and deletions, an existing file draws a warning if and only if it was stamped and was since written by somebody else, or its last recorded read was partial |
| ReadTracker.UnchangedIsTrue | client/agent/tools.py:406-428 | over any run a page is answered as unchanged only if that page was read before and nobody has written the file since |
| ReadTracker.RepeatsWereWritten | client/agent/tools.py:464-498 | over any run a read counted as a repeat, one refused because "the content has NOT changed" included, is of the page recorded last, whose file was written after that |
| ReadTracker.RepeatedIffWritten | client/agent/tools.py:406-498 | the page recorded last, read again, is counted as a repeat exactly when its file was written after that, and answered as unchanged exactly when it was not |
| ReadTracker.RefusedFromTheFourth | client/agent/tools.py:409-498 | over any run a page known to be unchanged is answered so once and refused from then on; any other is shown up to three times in a row and refused at the fourth |
| ReadTracker.UnchangedWhenUntouched | client/agent/tools.py:409-428 | and a page is answered as unchanged whenever it was read and its file neither written nor deleted since |
| ReadTracker.WarnsOf | client/agent/tools.py:142-167 | which warning is given: that the file changed, if it did; else that its last read was partial |
| ReadTracker.PageIsInBounds | client/agent/tools.py:387-388 | a page starts at line one or later and holds one to two thousand lines; what is in bounds is kept |
| ReadTracker.ReadingContinuesTheRun | client/agent/tools.py:383-500 | a read tool's call makes a run longer by just what its answer says happened, so all that is said of runs is said of the tools |
| ReadTracker.WritingContinuesTheRun | client/agent/tools.py:838-845 | so do an own write and a deletion |
| AnswerScope.LocalIff | client/context/answer_scope.py:90-126 | a scope is local exactly when the message names something local or points back at a turn that was |
| AnswerScope.ScopeIs | client/context/answer_scope.py:90-126 | whose words decide a scope: document and local things named, either alone, what is pointed back at, the bound document |
| AnswerScope.TranscriptIsCut | client/context/answer_scope.py:134-158 | whatever transcript follows what was said, only what was said is left |
| AnswerScope.Carried | client/context/answer_scope.py:173-224 | the loop with its flag computes the carried history |
| AnswerScope.WithheldFromIff | client/context/answer_scope.py:161-170 | history is withheld from a message exactly when a document is bound and the message neither points back nor names anything local |
| AnswerScope.CarriedIs | client/context/answer_scope.py:205-224 | each message after a question is carried as it was said, or as a note exactly when that question named something local |
| AnswerScope.QuestionsDecide | client/context/answer_scope.py:205-219 | the classes of the questions decide which exchanges are withheld |
| AnswerScope.NothingWithheldLeaks | client/context/answer_scope.py:173-224 | two histories that differ only in local exchanges and in tool transcripts are carried alike |
| AnswerScope.CarriedAlikeIff | client/context/answer_scope.py:173-224 | and only such histories are, as long as nobody wrote the notes that stand for what is withheld |
| AnswerScope.CarriedTwice | client/context/answer_scope.py:173-224 | carrying what was carried changes nothing |
| AnswerScope.WithheldForWhatItWasAboutIff | client/context/answer_scope.py:134-217 | an exchange is withheld for what its question, without the transcript stored behind it, names; that is what it was about unless the question only points back at a local one |

## Left out

- Audit events, export, `find_source`, the summary a turn is shown, and schema creation: they read or report, and change nothing the proofs are about.
- SQLite transactions, JSON serialisation of bodies and the `lifecycle` and `changed_at` columns: a body is a value and the columns repeat it; consolidate followed by apply is one step of the system, as both run on open stores.
- Timestamps are integers, fresh record ids are inputs that were never used before, and `list` says nothing of the order of two records created in the same second.
- KnowledgeRules.Evidence: does not model evidence given by a line number, because validate and revalidate never ask for it.
- Hashing, `normalise`, `_words` and the instruction and transient vocabularies: uninterpreted functions.
- The adhoc-workspace default of `consolidate`: the names are an input.
- ContextItems.Estimate: one estimator, `len // ratio + 1` for a non-empty text; another estimator's `estimate` is not modelled.
- ContextEngine.Compose: with one character a token the shortening pass is modelled but its decisions are not characterised, because a cut may then save nothing; the shipped ratio is 3.
- `working_state_projection`, `ContextItem` validation and the snapshot's dictionary form.
- ContextSelection.Select: does not model the rules of `_refusal` and the wording of `_grounds`, which read declared metadata branch by branch; the refusal is a function of the candidate.
- `select_standard`, phases and the path globs of the selector.
- AgentLoop.Run: does not model the text of messages beyond which constant they are, the copy of the messages that is sent, or the callbacks that report progress.
- AgentDispatch.Handle: does not model what the tools compute; each tool's text, and whether it got as far as asking for its write, are answers read off.
- The terminal's session state, its working directory and its output.
- JsonScanner.ScanInvertsPrint: numbers and literals are any word of letters, digits, signs and points, a superset of sections 3 and 6 of RFC 8259; Unicode escapes are four hexadecimal digits, surrogates not paired.
- ReplyEdits.ParseCalls: `json.loads` is a function from text to a call or nothing; the XML-like call forms parsed before it are not modelled.
- RankFusion.Fuse: scores are real numbers, not floating point, so two scores that only rounding makes equal or unequal are not distinguished as the program would.
- What one corpus retrieves, the choice among corpora, and `_reroot`: a corpus gives its documents as they go into the prompt.
- ReadTracker.WarnsIffDue: takes the modification time for a version that every write changes, so two writes within the clock's resolution and a restored time are not modelled.
- ReadTracker.ReadState.ReadFile: does not model the content of a page, its numbering and its hints; `reset_dedup`, which nothing in the client calls, is not an event.
- The failure counts and hints of `patch`, its fuzzy matching and its lint.
- SkillRoundTrip.RoundTrip: for skills whose texts are single trimmed lines and whose list values have no comma and no quote at either end; `OwnBodyIffReads` and `ReadsKeeps` say what any other description does, `AnyScopeSurvivesIff` what any other file does to its scope.
- SkillDescriptions.ScopeSurvivesIff: excludes descriptions that close the block themselves after a line of their own that states a scope; what they state is then the scope read.
- SkillReconcile.SkillIndex.Reconcile: that the collection refuses an id given twice in one upsert, and leaves its entries as they were, is taken from the collection, which is not part of this model; project and timestamp metadata are left out.
- SkillEdits.AnyScopeSurvivesIff: for requests whose description is one line; of further keys that start a fence it says that what stands before them is read.
- Line ends of written files: a newline is written as it is, as on a system whose line separator it is; reading turns the three kinds into one.
- SharedKnowledge.NoLostUpdates: does not cover runs in which somebody purges the team's own store, which deletes its histories by design.
- `applies_to`, `missing_requirements`, `load_library` and the collection's own errors.
- AnswerScope.Carried: does not model keys of a message other than its role and content.
