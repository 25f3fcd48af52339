# Research branches, family graph, dates and numbering: a verified model

The repository is an event-sourced genealogy server. This project models, in Dafny, the parts of it whose
correctness is not visible in any single function, and proves what they promise.

**Branch merges.** A research branch is a scope of its own over one append-only event log. Merging it is a
protocol of many store operations, none of them in one transaction: plan, validate, check that main has not
moved, claim the branch by a compare-and-set on the branch's own stream, replay the branch's events onto main
with one append per stream, re-read. `EventLog` is the log and the in-memory store over it, `BranchQueries`
and `Conflicts` the read side and the conflict rule, `ConflictRows` what that rule says about the rows the two
sides leave behind, `Replay` the grouping of events by stream, `MergeValidation` the checks, `MergeCommand` the
command itself as an imperative handler, `MergeModel` and `MergeResults` what a run of it leaves behind, `MissedVerdict` a write no verdict covers, `MergeProtocol` the state
machine of any number of concurrent creates, edits, merges and deletes and `MergeRuns` what holds of all its runs.

Two views of concurrency are used. In `MergeCommand`, `Interfere` may append anything by other requests that
keeps every branch opened once and written to only after its fork, add registry rows of branches the log shows
being opened, change any row's status, and let main's read model catch up, between any two operations; and every
operation may fail, through `Operate`, which counts the failures (`faults`), so that a contract can say what a
call does when nothing fails. `MergeRuns.AlwaysForked` proves that every reachable state is of that kind. Each
stored event carries the id of the request that appended it (`writer`, which the real log does not keep), so that
a contract can speak about what one call appended while others wrote too. In `MergeProtocol` whole runs are
sequences of single store operations of named requests.

**The family graph.** `FamilyGraph` is the parent relation and what linking and merging do to it;
`FamilyCommands` the commands over the rows, one after another.

**Dates.** `Text`, `GenDates`, `GenDateRoundTrip` and `GenDateSpelling` are the printer and parser of genealogical
dates (the DATE_VALUE grammar of the GEDCOM 5.5.1 standard, chapter 2, "Primitive Elements of the Lineage-Linked
Form", with DATE_CALENDAR_ESCAPE), the exact condition under which printing and parsing are inverse, and what else a
date may be written like without being read differently.

**Names, numbering, scopes.** `PrimaryNames` is the primary-name flag under interleaved commands, `Ahnentafel`
the ancestor numbering and its decoder, `PedigreeOrder` who is shown where and who is missing, `BranchScope` the
copy-on-write overlay and the guard of branch-scoped commands.

## What turned out not to hold

Each of these is kept as the code has it and stated by a lemma.

- Merging and deleting a branch do not exclude each other: a reachable log holds a claim and a delete of one
  branch exactly when the later of the two read the version of the branch's own stream after the earlier had
  landed (`MergeRuns.BothLandIff`, with a run in either order in `MergeRuns.DeleteAfterClaim` and
  `MergeRuns.ClaimAfterDelete`). Step by step, each append lands exactly when nothing was written to that
  stream since its version read (`MergeRuns.DeleteLandsIff`, `MergeRuns.ClaimLandsIff`).
- A conflict verdict can miss a write on a stream main had never seen when the plan was made: there the replay
  appends without a version check (`MergeModel.SlipsIn`), so another request's event can land between the version
  read and the append. `MissedVerdict.VerdictMissesWrite` is a plan and a log where that hides a conflict; the
  verdict covers all of main's side exactly when nothing slipped in (`MergeModel.ComparedAllIff`), and on every
  other stream nothing can.
- Interpreted dates in a non-Gregorian calendar lose their parts except in two shapes, because the parser
  strips the calendar escape from its working copy but reads an interpreted date from the original text
  (`GenDateRoundTrip.RoundTrip`, `GenDateRoundTrip.InterpretedJulianIsLost`). A Gregorian interpreted date
  comes back unless its phrase itself contains another calendar's escape.
- The amount of white space in a date can matter (`GenDateSpelling.SpacesMatterIff`): exactly before a range's
  separator word that directly follows its keyword, as in "BET AND 1900", where one space loses the second date
  and two keep it (`GenDateSpelling.RangeSensitive`), and inside the French calendar's escape, where one space
  keeps the calendar and two lose it (`GenDateSpelling.EscapeSensitive`). Everywhere else, outside an interpreted
  date's phrase, it does not (`GenDateSpelling.SpacesAside`). The kind of white space matters too: a keyword counts
  only before a plain space, so a date parted by tabs has no qualifier (`GenDateSpelling.PlainSpaceNeeded`).
- Merging two spouses passes every check and leaves a family with the same person as both partners
  (`FamilyGraph.MergingSpouses`, with the exact condition in `FamilyGraph.MergeKeepsPartnersDistinctIff`).
- Two links checked against the same tree can close a cycle together, because the version compared is the
  family's (`FamilyGraph.TwoGuardedLinksCanCycle`); they do exactly when each child is an ancestor of a partner
  of the other family (`FamilyGraph.TwoLinksKeepAcyclicIff`). The other family results are about sequential runs.
- A merge without any conflict can leave a person with two primary names
  (`PrimaryNames.MergeCanLeaveTwoPrimaries`): exactly when the branch's net effect makes some name primary while
  main has another primary it never wrote, or makes two names primary itself
  (`PrimaryNames.MergeLeavesTwoPrimariesIff`).
- The ancestor report can lose an ancestor within its limit (`PedigreeOrder.LimitLosesAnAncestor`), because the
  guard against cycles passes over a person met again with everybody above them, even where the first meeting was
  at the limit. Somebody is missing exactly when a person the father-first walk first meets at the limit stands on a
  shorter line too and a parent next on that line is met nowhere (`PedigreeOrder.SomebodyMissingIff`), and nobody is
  if no person stands both on a line as long as the limit and on a shorter one (`PedigreeOrder.NobodyMissing`).
- Updating a family's relationship type does not reach its row when the event is projected in process, and a marriage
  date never does: the projection takes plain text and the command records other types
  (`FamilyCommands.RelationIsLost`). In process and rebuilt from the log the row is the same exactly when the update
  leaves the relationship type alone or repeats it (`FamilyCommands.UpdateMatchesRebuildIff`).

## Model

| member | source | states |
|---|---|---|
| `EventLog.SameVersionSameHistory` | internal/repository/memory/eventstore.go:41-93 | Along a growing log, a (stream, branch) pair whose version is unchanged has an unchanged history |
| `EventLog.CompareAndSet` | internal/repository/memory/eventstore.go:41-93 | Of two appends expecting the same version of a pair, at most one succeeds, whatever happened in between |
| `EventLog.AppendKeepsValid` | internal/repository/memory/eventstore.go:41-106 | Any append, with or without the version check, keeps positions consecutive and versions rising; the first branch write starts from main's version at the fork |
| `EventLog.VersionStandsIff` | internal/repository/memory/eventstore.go:41-93 | A pair's version stands exactly when nothing was appended to the pair since it was read |
| `EventLog.MainVersionCounts` | internal/repository/memory/eventstore.go:191-196 | On main the version of a stream is the number of its events |
| `EventLog.SeedIsVersionAtFork` | internal/repository/memory/eventstore.go:95-106 | A branch's numbering of a stream starts at the version main had of it at the fork |
| `EventLog.AppendOnBranch` | internal/repository/memory/eventstore.go:41-106 | A branch's first write to a stream is compared with and numbered after main's version at the fork, every later one the branch's own |
| `EventLog.CappedEarly` | internal/repository/memory/eventstore.go:142-188 | Stopping a scan at its cap returns what reading on and cutting would |
| `EventLog.EventStore.AppendEvents` | internal/repository/memory/eventstore.go:41-93 | Appends atomically: refused exactly on a version mismatch with nothing changed, otherwise the log grows by exactly the new events and index and version table stay in step |
| `EventLog.EventStore.SeedFor` | internal/repository/memory/eventstore.go:98-106 | The fork seed computed from the stream's index is main's highest version up to the fork in the whole log |
| `EventLog.EventStore.GetStreamVersion` | internal/repository/memory/eventstore.go:191-196 | The version table answers with the version the log itself gives |
| `EventLog.EventStore.ReadStream` | internal/repository/memory/eventstore.go:109-122 | The index answers with the stream's events in log order, across branches |
| `EventLog.EventStore.ReadBranch` | internal/repository/memory/eventstore.go:142-157 | One branch's events after a position, in log order, cut at the cap |
| `EventLog.EventStore.ReadStreamsForBranch` | internal/repository/memory/eventstore.go:160-188 | The same restricted to a set of streams |
| `BranchQueries.WithoutLifecycle` | internal/query/branch_queries.go:232-241 | Keeps exactly the data events, in order |
| `BranchQueries.BranchStreamIds` | internal/query/branch_queries.go:245-256 | The distinct streams in first-touch order |
| `BranchQueries.StreamIdsOrder` | internal/query/branch_queries.go:245-256 | A stream stands before another when its first event does |
| `BranchQueries.OverlappingStreamIds` | internal/query/branch_queries.go:261-274 | The branch's streams that main moved too, in the branch's order |
| `BranchQueries.ForkedSideComplete` | internal/query/branch_queries.go:177-196 | An untruncated branch-side read of a branch the log shows being opened as its row says returns exactly the branch's data events in order |
| `BranchQueries.MainSideComplete` | internal/query/branch_queries.go:200-228 | An untruncated main side holds all main did after the fork to each of the branch's streams |
| `BranchQueries.CutIff` | internal/query/branch_queries.go:177-228 | A side counts as cut exactly when there are a thousand events to read on it |
| `Conflicts.SummarizeStreams` | internal/query/merge_conflicts.go:393-420 | The table holds each touched stream's net effect and nothing else |
| `Conflicts.ClassifyConflicts` | internal/query/merge_conflicts.go:288-305 | The conflict list is the per-stream verdicts in first-touch order, which `ConflictRows.ListedByRows` reads off the rows |
| `Conflicts.ConflictListExact` | internal/query/merge_conflicts.go:288-305 | A conflict is listed exactly when it is the verdict on one of the branch's streams |
| `Conflicts.OneConflictPerStream` | internal/query/merge_conflicts.go:288-305 | No stream is listed twice |
| `Conflicts.OrderMattersIffDivergent` | internal/query/merge_conflicts.go:599-610 | Two net effects have a divergent field exactly when applying them in the two orders can end differently |
| `Conflicts.VerdictMeaning` | internal/query/merge_conflicts.go:310-354 | The verdict by net effects: edit-edit exactly when neither side deleted and the order of the effects matters, delete-edit exactly when one side alone deleted, the branch's side offered unless main deleted |
| `Conflicts.CreatedXrefs` | internal/query/merge_conflicts.go:615-627 | Each stream's first non-empty xref |
| `Conflicts.XrefOwners` | internal/query/merge_conflicts.go:630-642 | The first stream to claim each xref |
| `ConflictRows.FoldRecords` | internal/query/merge_conflicts.go:393-420 | A side counts as deleting exactly when one of its events deletes, and has exactly the fields its events touch |
| `ConflictRows.LastWordCounts` | internal/query/merge_conflicts.go:393-420 | Each field's value is what the last event touching it says: linked, unlinked, removed, the name, or the text |
| `ConflictRows.RowsShowNetEffect` | internal/query/merge_conflicts.go:380-420 | The rows a side without a deletion leaves show every field it touched at the value it asserts and every other as it was |
| `ConflictRows.LinkedIff` | internal/query/merge_conflicts.go:515-525 | A child counts as linked exactly when the read model shows the link after the side's events |
| `ConflictRows.RowOrderIff` | internal/query/merge_conflicts.go:596-610 | For sides without deletions, the fields diverge exactly when the two orders of replay can leave different rows |
| `ConflictRows.ListedByRows` | internal/query/merge_conflicts.go:288-376 | On a stream of the branch: delete-edit is listed exactly when main touched it and one side alone deletes, edit-edit exactly when neither does and the replay order matters to the rows, create-create exactly otherwise when another stream first claimed its xref on main |
| `ConflictRows.ListedSays` | internal/query/merge_conflicts.go:310-376 | A listed conflict offers the branch's side exactly when it is no create collision and main does not delete; an edit-edit conflict names exactly the fields both sides leave different in the rows |
| `ConflictRows.DifferentLinksConflict` | internal/query/merge_conflicts.go:405-408 | Sides that leave a child link different in the read model are in an edit-edit conflict if neither deletes the family |
| `Replay.GroupEventsByStream` | internal/command/branch_merge_commands.go:637-650 | The groups are one per stream in the order of the branch's stream ids, each its stream's events in order |
| `Replay.GroupsShape` | internal/command/branch_merge_commands.go:637-650 | Groups are never empty and name pairwise distinct streams |
| `Replay.GroupingConserves` | internal/command/branch_merge_commands.go:637-650 | Grouping loses no event and repeats none |
| `Replay.GroupedReplaySameState` | internal/command/branch_merge_commands.go:516-554 | Replaying group by group ends in the state of the original order, for every projection in which events of different streams commute |
| `Replay.PartialReplaySameState` | internal/command/branch_merge_commands.go:516-554 | The same with the streams resolved to main left out |
| `Replay.ReplayAccountsForAll` | internal/command/branch_merge_commands.go:493-556 | Replayed and skipped events together are the whole replay set |
| `MergeModel.NoClaimStands` | internal/command/branch_merge_commands.go:394-452 | A search that found no claim stays true for as long as the version read before it stands |
| `MergeModel.ValidBranchIff` | internal/domain/branch.go:109-126 | A row is valid exactly within its length limits, and the first limit broken is reported |
| `MergeModel.Refusals` | internal/api/branch_handlers.go:297-338 | Each refusal that wrote nothing is a 409 with a code of its own |
| `MergeModel.OtherAnswers` | internal/api/branch_handlers.go:333-378 | Misused resolutions and long notes are 400, a missing branch 404, a missing store 503, anything else 500 |
| `MergeModel.PartlyAppliedWins` | internal/api/branch_handlers.go:340-362 | A partly applied merge is a 500 whatever stopped it, never a refusal |
| `MergeModel.PinnedVerdictStands` | internal/query/merge_conflicts.go:132-193 | While main still has a version of a stream it had before the main side was read, its post-fork events there are exactly those that read returned |
| `MergeModel.BatchVerdict` | internal/command/branch_merge_commands.go:582-614 | When an event of the merge lands on main, all that others had put on main's side of its stream is what the verdict compared and then what slipped in between the version read and the append; where a version is compared, nothing did |
| `MergeModel.ComparedAllIff` | internal/command/branch_merge_commands.go:582-614 | The verdict was computed from all that others had on main's side of the stream exactly when nothing of theirs slipped in |
| `MissedVerdict.VerdictMissesWrite` | internal/command/branch_merge_commands.go:582-614 | A valid log, a plan its reads can make and a copy that meets every check, landing over a main edit of the same field the plan never compared |
| `MergeValidation.ValidateResolutions` | internal/command/branch_merge_commands.go:725-752 | Accepts exactly known values for streams the branch touched |
| `MergeValidation.ValidateConflictResolutions` | internal/command/branch_merge_commands.go:766-781 | Accepts exactly resolutions each decided conflict supports |
| `MergeValidation.UnresolvedConflicts` | internal/command/branch_merge_commands.go:787-795 | Counts the conflicts without a resolution; zero exactly when every conflict has one |
| `MergeValidation.ReplayLeavesNoDanglingLink` | internal/command/branch_merge_commands.go:653-717 | Events that delete no person and link only persons who are there or are created leave no dangling child link |
| `MergeValidation.PersonRowIff` | internal/repository/projection.go:223-340 | Main's read model has exactly the persons whose creation no later deletion undid |
| `MergeValidation.LinkRowIff` | internal/repository/projection.go:489-603 | And exactly the child links no later unlinking or deletion of the family undid |
| `MergeCommand.MergeHandler.CaptureMainVersions` | internal/query/merge_conflicts.go:216-231 | Pins every touched stream, each at a version main had between the call's start and its end |
| `MergeCommand.MergeHandler.LoadBranchSide` | internal/query/branch_queries.go:177-196 | Returns a branch the log it read shows being opened with the row's fork, name and description, the branch side of that log, and whether it was cut |
| `MergeCommand.MergeHandler.LoadMainSide` | internal/query/branch_queries.go:200-228 | Returns the main side of the log it read, and whether it was cut |
| `MergeCommand.MergeHandler.ReadMainCreateTail` | internal/query/merge_conflicts.go:263-275 | Reads main's tail exactly when the branch created something with an xref |
| `MergeCommand.MergeHandler.PlanMerge` | internal/query/merge_conflicts.go:164-193 | The plan is of three states of the log after the call began, branch, main and tail in that order: every pin lies between the first two and the conflicts compare exactly those reads |
| `MergeCommand.MergeHandler.ValidatePlanNotStale` | internal/command/branch_merge_commands.go:345-383 | Passes only if every stream to replay has a pin and was seen at that version during the check; stale is answered only for a stream to replay seen at another version, incomplete only for one without a pin |
| `MergeCommand.MergeHandler.BranchAlreadyClaimed` | internal/command/branch_merge_commands.go:464-482 | Finds a claim exactly when the log holds one in the branch's own scope |
| `MergeCommand.MergeHandler.ProjectBranchMerged` | internal/repository/projection.go:211-221 | Marks the row with the claim's own note and then purges; a failed purge leaves it marked, and a missing row is the only recognisable error |
| `MergeCommand.MergeHandler.ProjectBranchDeleted` | internal/repository/projection.go:185-196 | Archives the row and then purges, in the same two steps |
| `MergeCommand.MergeHandler.ClaimMerge` | internal/command/branch_merge_commands.go:394-452 | Either appends nothing, or exactly one claim, onto a log holding none for the branch, whatever interleaves; "already claimed" is answered only when a claim stands, and the row then shows it with its own note, or the branch's own stream was written to meanwhile |
| `MergeCommand.MergeHandler.ReplayStream` | internal/command/branch_merge_commands.go:582-624 | Appends the whole group as one block at the planned version, read after the call began, or nothing: stale only where main was seen at another version, a conflict only where something landed on the stream between version read and append, any other failure only where an operation failed |
| `MergeCommand.MergeHandler.ReplayOntoMain` | internal/command/branch_merge_commands.go:493-556 | What reached main is always a whole-group prefix with original payloads, each event over the history its verdict read; "not modified" is said exactly when it is empty, and it stops early only where an operation failed or another request wrote to a stream to replay since the plan's reads |
| `MergeCommand.MergeHandler.AdmitMerge` | internal/command/branch_merge_commands.go:215-238 | Admits only the registry's own row of an active branch and a note within the limit; every refusal names what the row or the handler lacks |
| `MergeCommand.MergeHandler.ValidateNoDanglingReferences` | internal/command/branch_merge_commands.go:675-717 | Passes only if every replayed child link names a person the replay touches or main's read model was seen to have, and refuses only over one it was seen to lack; the memo skips no needed lookup |
| `MergeCommand.MergeHandler.ValidateMerge` | internal/command/branch_merge_commands.go:256-289 | Passing all checks means every conflict decided, every linked person seen, and, last, main seen at every pin; every refusal is due to the part of the plan or of the resolutions it names, or to a failed operation |
| `MergeCommand.MergeHandler.PrepareMerge` | internal/command/branch_merge_commands.go:215-289 | Refuses without appending, for a reason the row, a plan of the log since the call began or a failed operation gives, or hands over an untruncated plan with every check passed |
| `MergeCommand.MergeHandler.MergeBranch` | internal/command/branch_merge_commands.go:215-318 | Over every interleaving and failure: a call that claimed nothing appended nothing and was refused by the row, a plan, a rival claim or a failed operation; one that claimed left its claim and then a whole-group prefix of the branch's events, every check standing; unless an operation failed or another request wrote to a replayed stream on main since the plan's reads, it is done; its outcome says which; 400, 404, 409 and 503 are answered only when nothing was appended |
| `MergeCommand.MergeHandler.FinishMerge` | internal/command/branch_merge_commands.go:295-318 | After the claim: whatever stops the replay is a failed operation or another request's write to a replayed stream, and a replay that completes is reported as done unless the branch cannot be read back |
| `MergeCommand.MergeHandler.CreateBranch` | internal/command/branch_commands.go:47-79 | Appends exactly one BranchCreated, strictly after the base position it records, and the row repeats it; refuses only for a missing store, a name or description out of limits, or a failed operation |
| `MergeCommand.MergeHandler.DeleteBranch` | internal/command/branch_commands.go:85-125 | Archives only a row seen active, appending exactly one BranchDeleted, with nothing on the branch's own stream since its version was read; each refusal names the row's fault, and a conflict is answered only when something was written meanwhile |
| `MergeCommand.MergeHandler.AdmitDelete` | internal/command/branch_commands.go:85-100 | Passes exactly the registry's row of an active branch, and otherwise names the missing store, the missing row or its state |
| `MergeResults.MergedStateIsBranchState` | internal/command/branch_merge_commands.go:295-318 | What a completed merge put on main projects to the state of all data events the log held on the branch when it was read, in order, minus the streams resolved to main |
| `MergeResults.ReplayAccountsForBranch` | internal/command/branch_merge_commands.go:493-556 | A completed replay put on main exactly as many events as the log held data events on the branch, less those of streams resolved to main |
| `MergeResults.MergeAccountsForAll` | internal/command/branch_merge_commands.go:312-317 | On success the events put on main and those of streams resolved to main make up all the branch's data events in the log, and the skipped streams are exactly those resolved to main |
| `MergeResults.MainOnlyAsDecided` | internal/command/branch_merge_commands.go:263-279 | At every point of a replay what the merge put on main repeats a data event of the branch, is of no stream resolved to main, and of a stream in conflict only where "branch" was chosen and offered |
| `MergeResults.OverrideWasChosen` | internal/command/branch_merge_commands.go:766-795 | With every conflict decided, a stream both sides touched that one alone deletes, or whose order of replay matters to the rows, is replayed only where "branch" was chosen, and never over main's deletion |
| `MergeResults.NoSilentOverride` | internal/command/branch_merge_commands.go:558-614 | Where the branch's and others' events on main, as they stood when a merged event landed, had one side alone deleting or an order that matters to the rows, the caller chose "branch" and main had not deleted |
| `MergeResults.MergeLeavesNoDanglingLink` | internal/command/branch_merge_commands.go:653-717 | If main had no dangling child link where its read model stood when the check began and nobody else has since deleted a person or linked a child, a completed merge that deletes no person and creates the persons it touches and links leaves none |
| `MergeRuns.AtMostOneClaim` | internal/command/branch_merge_commands.go:385-452 | In every run of merges, deletes, retries and failed projections a branch is claimed at most once |
| `MergeRuns.NeverCopiedTwice` | internal/command/branch_merge_commands.go:295-305 | Every event a merge put on main is a recorded copy, and no two copies share a source or a target: no branch event is copied twice, across all merges and retries |
| `MergeRuns.CopiesFollowTheClaim` | internal/command/branch_merge_commands.go:295-305 | Every copy on main is a faithful copy of a data event of the branch, appended by the request that won its claim, after the claim |
| `MergeRuns.AlwaysForked` | internal/command/branch_commands.go:47-79 | In every reachable state each branch is opened once, everything on it lies after its fork, and each registry row is of a branch opened as the row says |
| `MergeRuns.BranchEventsAfterFork` | internal/command/branch_commands.go:55-72 | In every reachable log each event of a branch lies strictly after the branch's base position |
| `MergeRuns.LoadLosesNothing` | internal/query/branch_queries.go:177-196 | So in every reachable state an untruncated branch-side read returns exactly the branch's data events |
| `MergeProtocol.NextKeeps` | internal/command/branch_merge_commands.go:394-556 | What every single step keeps |
| `MergeRuns.SearchingFirstWouldClaimTwice` | internal/command/branch_merge_commands.go:394-452 | With the version read after the search, a claim landing between the two would always be followed by a second one; read before, never |
| `MergeRuns.BothLandIff` | internal/command/branch_commands.go:85-125 | A reachable log holds both a claim and a delete of a branch exactly when the later one read the version after the earlier had landed |
| `MergeRuns.DeleteLandsIff` | internal/command/branch_commands.go:90-118 | In every reachable state a delete's append lands exactly when nothing was written to the branch's own stream since its version read |
| `MergeRuns.ClaimLandsIff` | internal/command/branch_merge_commands.go:394-452 | And so does a claim's |
| `MergeRuns.ReplayLandsIff` | internal/command/branch_merge_commands.go:582-614 | In every reachable state a replay append whose version check passes puts exactly its group on main and records a copy of each event; otherwise nothing happens |
| `MergeRuns.DeleteAfterClaim` | internal/command/branch_commands.go:85-125 | A run in which a branch is merged and then deleted |
| `MergeRuns.ClaimAfterDelete` | internal/command/branch_merge_commands.go:215-318 | A run in which a branch is deleted and then merged |
| `FamilyGraph.LinkKeepsAcyclic` | internal/command/family_commands.go:269-285 | A link that passes the guard closes no cycle |
| `FamilyGraph.GuardIsNeeded` | internal/command/family_commands.go:269-285 | A link that fails the guard would close one |
| `FamilyGraph.LinkKeepsTree` | internal/command/family_commands.go:242-308 | A link keeps references, one family per child and a partner per family too |
| `FamilyGraph.MergeKeepsAcyclic` | internal/command/merge_commands.go:127-155 | Contracting two persons the merge's checks accept keeps ancestry acyclic |
| `FamilyGraph.MergeKeepsTree` | internal/command/merge_commands.go:127-155 | And keeps every reference and every child in at most one family |
| `FamilyGraph.MergeGuardIff` | internal/command/merge_commands.go:127-155 | The merge's checks are exact: they accept just the contractions that lose no parent and close no cycle |
| `FamilyGraph.MergeKeepsPartnersDistinctIff` | internal/repository/projection.go:1445-1465 | Partners stay distinct exactly when no family has both merged persons as partners |
| `FamilyGraph.MergingSpouses` | internal/command/merge_commands.go:127-155 | Two spouses pass every check and their family ends up with one person twice |
| `FamilyGraph.AncestorAfterLink` | internal/command/family_commands.go:269-308 | After a link a person is above another by an old climb or through the link, and no other way |
| `FamilyGraph.TwoLinksKeepAcyclicIff` | internal/command/family_commands.go:242-308 | Two links that each passed the guard on the same tree keep ancestry acyclic exactly when they do not cross |
| `FamilyGraph.TwoGuardedLinksCanCycle` | internal/command/family_commands.go:242-308 | Two links checked against the same tree can close a cycle |
| `FamilyGraph.AncestorsShrink` | internal/command/family_commands.go:352-383 | On an acyclic tree a parent has strictly fewer ancestors, which is why the search ends |
| `FamilyCommands.FamilyHandler.IsAncestor` | internal/command/family_commands.go:352-383 | Terminates and decides exactly the reflexive-transitive parent relation |
| `FamilyCommands.FamilyHandler.GetChildFamily` | internal/repository/memory/readmodel.go:909-924 | Finds a family the person is a child of whenever there is one |
| `FamilyCommands.FamilyHandler.CreatePerson` | internal/command/person_commands.go:80-99 | Adds one person and keeps the tree |
| `FamilyCommands.FamilyHandler.DeletePerson` | internal/command/person_commands.go:220-262 | Refuses exactly for a missing or changed person, a partner or a child; otherwise removes just that person |
| `FamilyCommands.FamilyHandler.CreateFamily` | internal/command/family_commands.go:46-116 | Refuses exactly without partners, with unknown or equal partners or invalid details; otherwise adds the family and keeps the tree |
| `FamilyCommands.CreateAcceptedIff` | internal/command/family_commands.go:46-90 | A family is accepted exactly with a partner, known and different partners, a known relationship and a valid date |
| `FamilyCommands.FamilyHandler.UpdateFamily` | internal/command/family_commands.go:135-187 | Changes at most the place and the version of the family, never the graph |
| `FamilyCommands.UpdateMatchesRebuildIff` | internal/repository/projection.go:389-439 | An update projected in process gives the rebuilt row exactly when it leaves the relationship type alone or repeats it; a marriage date is taken neither way |
| `FamilyCommands.RelationIsLost` | internal/command/family_commands.go:147-166 | A marriage updated to a partnership stays a marriage in its row |
| `FamilyCommands.FamilyHandler.DeleteFamily` | internal/command/family_commands.go:196-227 | Refuses exactly for a missing family, one with children or a changed one; otherwise removes it |
| `FamilyCommands.FamilyHandler.LinkChild` | internal/command/family_commands.go:242-308 | Refuses exactly in the code's order of checks, circular ancestry included; otherwise adds the link and keeps the tree |
| `FamilyCommands.LinkAcceptedIff` | internal/command/family_commands.go:242-285 | Each refusal of a link with its exact condition; a circular one is exactly a link that would close a cycle |
| `FamilyCommands.FamilyHandler.UnlinkChild` | internal/command/family_commands.go:317-348 | Refuses exactly when the child is not in that family or the family changed; otherwise removes the link |
| `FamilyCommands.FamilyHandler.MergePersons` | internal/command/merge_commands.go:50-155 | Refuses exactly as checked; otherwise the new tree is the old one with the two persons contracted |
| `FamilyCommands.MergeAcceptedIff` | internal/command/merge_commands.go:50-155 | A merge is accepted exactly for two known persons at their versions whose contraction loses no parent and closes no cycle |
| `FamilyCommands.FamilyHandler.ProjectPersonMerged` | internal/repository/projection.go:1445-1532 | The row-by-row projection of a merge is that contraction |
| `Text.AtoiItoa` | internal/domain/date.go:351-367 | Printing and reading any 64-bit number gives it back |
| `Text.FieldsJoin` | internal/domain/date.go:267-271 | Splitting words joined by single spaces gives the words back |
| `Text.CutWord` | internal/domain/date.go:200-213 | A range is split at its separator word and nowhere else |
| `GenDates.ParseSimpleDate` | internal/domain/date.go:267-298 | Sets year, month and day as the number of words decides |
| `GenDates.ParseInterpretedGenDate` | internal/domain/date.go:226-242 | Separates date and phrase of an interpreted date |
| `GenDates.ParseGenDate` | internal/domain/date.go:164-219 | Reads calendar, qualifier, dates and phrase, the table of qualifiers tried in order |
| `GenDates.FormatSimpleDate` | internal/domain/date.go:351-367 | Prints day, month code and year, leaving out a month the calendar lacks |
| `GenDateRoundTrip.MonthThereAndBack` | internal/domain/date.go:69-132 | The month tables of all calendars are inverse to each other |
| `GenDateRoundTrip.MonthTable` | internal/domain/date.go:70-100 | The number of every month code of the four calendars |
| `GenDateRoundTrip.WordsReadBack` | internal/domain/date.go:267-367 | The words of a simple date read back as the date exactly when it is well formed |
| `GenDateRoundTrip.WorkOfWritten` | internal/domain/date.go:176-187 | In every calendar the escape is found behind any qualifier and cut out cleanly |
| `GenDateRoundTrip.ReadsRange` | internal/domain/date.go:198-213 | A printed range with a second date reads back date by date |
| `GenDateRoundTrip.ReadsOpenRange` | internal/domain/date.go:198-218 | A printed range without a second date loses its year |
| `GenDateRoundTrip.PhraseEscape` | internal/domain/date.go:248-263 | The escape found in an interpreted Gregorian date is its phrase's own |
| `GenDateRoundTrip.InterpretedRoundTrip` | internal/domain/date.go:226-242 | Exactly which interpreted dates come back |
| `GenDateRoundTrip.RoundTrip` | internal/domain/date.go:164-340 | For every date in a known calendar: parsing the printed form gives it back, up to raw text and the default calendar's name, if and only if it is empty or well formed |
| `GenDateRoundTrip.InterpretedJulianIsLost` | internal/domain/date.go:187-188 | A Julian interpreted date that does not come back |
| `GenDateSpelling.LongSpellings` | internal/domain/date.go:143-156 | ABOUT, BEFORE and AFTER are read as ABT, BEF and AFT are, whatever follows |
| `GenDateSpelling.KeywordsMean` | internal/domain/date.go:143-156 | What each keyword makes of a date |
| `GenDateSpelling.KnownTokens` | internal/domain/date.go:49-67 | The tokens of the calendar escapes |
| `GenDateSpelling.CaseAside` | internal/domain/date.go:164-242 | Letter case does not matter, and an interpreted date's phrase keeps it |
| `GenDateSpelling.SpacesAside` | internal/domain/date.go:164-298 | The amount of white space does not matter outside an interpreted date's phrase, two kinds of place excepted |
| `GenDateSpelling.SpacesMatterIff` | internal/domain/date.go:176-218 | Exactly before which words the amount of white space can make a difference |
| `GenDateSpelling.RangeSensitive` | internal/domain/date.go:189-213 | A range without a first date is read differently with one space behind its keyword and with two |
| `GenDateSpelling.EscapeSensitive` | internal/domain/date.go:248-263 | The French calendar's escape is recognised with one space inside and not with two |
| `GenDateSpelling.EachPartAlone` | internal/domain/date.go:267-298 | Year, month and day of a simple date are each read from their own word; three words keep what can be read, two without a month nothing |
| `GenDateSpelling.UnknownEscapeStays` | internal/domain/date.go:248-263 | A text without the escape of a known calendar is left as it is and read as Gregorian |
| `GenDateSpelling.PlainSpaceNeeded` | internal/domain/date.go:143-196 | A date without a plain space has no qualifier, whatever keyword it begins with |
| `PrimaryNames.AddName` | internal/command/name_commands.go:42-122 | Builds a demotion of the primary where the new name takes over, then the addition: afterwards the new name has the given text and is primary if asked or first, every other name keeps its text, and only a demoted one its flag not |
| `PrimaryNames.BuildNameUpdateEvents` | internal/command/name_commands.go:242-263 | Builds a demotion of another primary exactly when the update promotes, then the update: afterwards the name has the text and flag given, or its own where none is, every other name keeps its text, and only a demoted one its flag not |
| `PrimaryNames.DeleteName` | internal/command/name_commands.go:272-324 | Refuses exactly an unknown name, the last one and the primary one; otherwise just that name goes |
| `PrimaryNames.UpdateTakesEffect` | internal/command/name_commands.go:146-171 | In every run, an update whose append finds its version standing leaves the rows as asked, and as they were otherwise |
| `PrimaryNames.NeverTwoPrimaries` | internal/command/name_commands.go:42-324 | In every interleaving a person never has two primary names |
| `PrimaryNames.NeverUnnamed` | internal/command/name_commands.go:272-324 | And never goes from some names to none |
| `PrimaryNames.ExactlyOnePrimaryAtRest` | internal/command/name_commands.go:42-324 | If no update clears the flag, exactly one name is primary whenever no projection is outstanding |
| `PrimaryNames.NextKeeps` | internal/command/handler.go:237-255 | The name rows are always the projection of the stream up to the person row's version |
| `PrimaryNames.MergedIsOverride` | internal/query/merge_conflicts.go:550-574 | Replaying the branch's name events leaves main's rows overridden, name by name, with the branch's net effect |
| `PrimaryNames.MergeLeavesTwoPrimariesIff` | internal/query/merge_conflicts.go:550-574 | For main rows with at most one primary, exactly when the merged rows have two |
| `PrimaryNames.MergeOfOnePrimaryEach` | internal/query/merge_conflicts.go:550-574 | For a branch that sees at most one primary itself: exactly when it made a name primary and main has a primary it never wrote |
| `PrimaryNames.MergeCanLeaveTwoPrimaries` | internal/query/merge_conflicts.go:550-574 | A branch and main that each hand the flag on, each left with one primary, are no conflict and merge into two |
| `Ahnentafel.GetRelationLabel` | internal/api/handlers.go:77-111 | Spells the path that halving decodes from the number |
| `Ahnentafel.NumberOfPath` | internal/api/handlers.go:91-99 | Numbering the decoded path gives the number back |
| `Ahnentafel.ParentsNumbers` | internal/query/ahnentafel_queries.go:89-117 | A father's number is twice his child's, a mother's one more |
| `Ahnentafel.LabelOfParents` | internal/api/handlers.go:77-111 | The label of a number from the label of its half |
| `Ahnentafel.LabelsDiffer` | internal/api/handlers.go:77-111 | No two lines of descent have the same label |
| `Ahnentafel.LimitMeans` | internal/query/pedigree_queries.go:52-60 | Five generations where none is asked for, at most ten, and otherwise what is asked |
| `Ahnentafel.BuildNode` | internal/query/pedigree_queries.go:88-149 | Builds a tree that follows recorded parents, counts generations, stays within the limit, shows nobody twice, and shows a recorded parent on file of a person below the limit exactly when the father-first walk has not met them |
| `Ahnentafel.LineShownIff` | internal/query/pedigree_queries.go:88-149 | A line of recorded parents within the limit is shown to its end exactly when nobody on it stands elsewhere in the tree |
| `Ahnentafel.AllLinesShownIff` | internal/query/pedigree_queries.go:88-149 | Every line within the limit is shown exactly when no person is met on two of them |
| `PedigreeOrder.ShownIffReached` | internal/query/pedigree_queries.go:88-149 | A line is shown to its end exactly when the father-first walk over the records reaches its last person there first |
| `PedigreeOrder.OneTree` | internal/query/pedigree_queries.go:88-149 | So the tree is determined by the records |
| `PedigreeOrder.SomebodyMissingIff` | internal/query/pedigree_queries.go:88-149 | Exactly when an ancestor within the limit is shown nowhere |
| `PedigreeOrder.NobodyMissing` | internal/query/pedigree_queries.go:88-149 | Nobody is missing if no person stands both on a line as long as the limit and on a shorter one |
| `PedigreeOrder.LimitLosesAnAncestor` | internal/query/pedigree_queries.go:88-149 | Four persons whose report to two generations loses a grandfather |
| `Ahnentafel.TraverseTree` | internal/query/ahnentafel_queries.go:94-117 | Appends exactly the subtree's entries |
| `Ahnentafel.ReportedIffPathLeads` | internal/query/ahnentafel_queries.go:94-117 | A number is given to a person exactly when the path decoded from it leads to that person |
| `Ahnentafel.NumbersDistinct` | internal/query/ahnentafel_queries.go:94-117 | No number is given out twice |
| `Ahnentafel.ClosedUnderHalving` | internal/query/ahnentafel_queries.go:94-117 | With a number, half of it is reported too |
| `Ahnentafel.NumberTellsAncestor` | internal/query/ahnentafel_queries.go:55-117 | A number tells the generation by its power of two and the ancestor by climbing recorded parents |
| `Ahnentafel.ReportedLineIff` | internal/query/ahnentafel_queries.go:55-117 | A line's last person is reported under the line's own number exactly when nobody on it stands elsewhere in the tree |
| `Ahnentafel.GetAhnentafel` | internal/query/ahnentafel_queries.go:55-87 | The report is strictly increasing with one entry per node of a tree in which recorded parents are missing only where shown elsewhere, and its maximum generation is attained |
| `BranchScope.ResolveAllRows` | internal/repository/memory/readmodel.go:49-73 | The two passes give exactly what the branch sees row by row, tombstones included |
| `BranchScope.AllWritesSeen` | internal/repository/memory/readmodel.go:115-136 | A branch sees its own writes exactly as on a private copy |
| `BranchScope.AllWritesUnseen` | internal/repository/memory/readmodel.go:33-136 | And nobody else sees any of them |
| `BranchScope.PurgeBranch` | internal/repository/memory/readmodel.go:1015-1045 | After a purge the branch sees main, nobody else sees a difference, and main is never purged |
| `BranchScope.RunIsolated` | internal/command/handler.go:221-257 | No run of branch-scoped commands changes main's or any other branch's streams or rows, though a write to a table not kept per branch would land on main: the guard admits no event that makes one |
| `BranchScope.BranchAwareIff` | internal/command/handler.go:40-69 | The allowlist holds exactly the events whose projections on a branch write nothing but tables kept per branch |
| `BranchScope.RefusesIff` | internal/command/handler.go:228-236 | A command is refused exactly on a branch, for an event that would write a table main alone has |
| `BranchScope.RefusedOnBranch` | internal/command/handler.go:40-69 | Source events, branch lifecycle events and person merges change nothing in a branch scope |
| `BranchScope.MainOnlyWriteSeen` | internal/repository/memory/readmodel.go:152-166 | A write to a table not kept per branch would change what main sees, in whatever scope it is made |
| `BranchScope.LifecycleWritesRegistry` | internal/repository/projection.go:160-221 | The lifecycle events are those that write the registry, and the allowlist holds none |
| `BranchScope.OverlayIsOwnCopy` | internal/command/handler.go:40-69 | Copy on write refines a full copy per branch |
| `BranchScope.Handler.Run` | internal/command/handler.go:221-257 | On a branch a command with one event that writes a table main alone has changes nothing; any other appends and projects exactly as specified, and nobody outside the branch can tell |

## Left out

- HTTP plumbing, authentication, configuration, GEDCOM import and export, media, citations, notes and the other record types.
- The SQL backends: only the in-memory store is modelled; an append whose commit outcome is unknown to the caller is not.
- JSON decoding of payloads (a decode failure is one of the failures any step may have), timestamps, generated ids (assumed fresh) and message wording beyond "modified" and "not modified".
- CompareBranch and the display names of conflicts: the same two reads without pins, and presentation.
- EventLog.EventStore.AppendEvents: an event that cannot be encoded, part way through the list, leaves the earlier ones stored with the version table behind; events here always encode.
- MergeCommand.MergeHandler.ValidateNoDanglingReferences: main's read model is the projection of some prefix of the log, lagging by any amount but never ahead or out of order.
- MergeResults.MergeLeavesNoDanglingLink: a person merge by another request, which also removes a person's row, is not an event of the log model.
- Conflicts.ClassifyConflicts: reports a conflict's fields as a set, where the code sorts them, and leaves out the values shown for review.
- MergeResults.OverrideWasChosen: the rows whose order matters are the stream's own text fields, child links and names, each by itself; a rule across them, as one primary name a person, is outside it (see `PrimaryNames.MergeCanLeaveTwoPrimaries`).
- MergeResults.NoSilentOverride: the same.
- ConflictRows.RowsShowNetEffect: a text field is what the last update says, where the projection takes the fields it knows in the types it knows.
- MergeCommand.MergeHandler.MergeBranch: name, description and note lengths count characters, where the code counts bytes.
- MergeRuns.NeverCopiedTwice: replay appends may expect any version in that machine; the pins are checked in MergeCommand.
- FamilyCommands.FamilyHandler.CreateFamily: whether the marriage date is valid is an input; its month and day check is not modelled.
- FamilyCommands.FamilyHandler.UpdateFamily: partners are not part of the input, as the endpoint never passes them; the code would check neither their existence nor ancestry.
- FamilyCommands.FamilyHandler.MergePersons: moves families and child links only; names, citations, events, media and research records follow the same pattern, and the pedigree edges of the merged person's own children, which keep naming that person, are not modelled.
- FamilyCommands.FamilyHandler.ProjectPersonMerged: projects the family and child rows alone, as above.
- GenDateRoundTrip.RoundTrip: qualifiers outside the nine known ones and calendars outside the four known ones are not modelled; strings are sequences of characters, so an upper-case prefix that stems from a multi-byte letter is cut by characters, where the code cuts by bytes.
- GenDates: conversion to Gregorian dates and sorting keys belong to an external library.
- PrimaryNames.NeverTwoPrimaries: person merges and branch merges, which write names outside these commands, and deleting the person are not steps of the machine.
- Ahnentafel.BuildNode: parents are given per person; how a link assigns partners to father and mother by gender is not modelled.
- BranchScope.Handler.Run: a projection is any function from the scope, what it sees and the event to writes of that event's tables; the handlers' row contents are not modelled there.
- BranchScope.RunIsolated: isolation is stated for projections that keep to their event's tables.
- GenDateSpelling.SpacesAside: white space here is plain spaces; a tab behind a keyword is not one.
- Rollback commands, snapshots, history queries and search.
