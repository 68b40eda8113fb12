# Verified models of the controlled Obsidian pipeline

This project models the parts of the repository whose correctness is easiest to get wrong, and
proves what they promise. Each component is a model of its own; they share only `Basics`
(options, sequences, stable sorting), `Decimal` (decimal notation) and `TextLines` (Python's view
of text). A component's operations are functions with a method beside each loop; what an operation
answers is then pinned once more, from its inputs alone, in lemmas that do not name it.

- **Section ownership** — `Outline` is the stack that turns headings into a tree with unique ids
  and look-ahead end lines. `ContentRanges` is the in-place assignment of owned lines: child scopes
  are cut out of a parent's. `Ownership` puts the two together for every document text: each
  section owns exactly the lines from its heading to the line before the next heading. `TextShape`
  says which lines and headings a text has.
- **Section ledger** — `SectionLedger` is the stored ledger with its `init` and `update`
  commands; `LedgerEffects` is exactly when each succeeds and what it changes, `LedgerRuns` what
  every run of them keeps.
- **Graph reuse** — `GraphDigest` is the framing of the dependency digest. `GraphReuse` is the
  leader/follower protocol of `derive` as a machine of atomic steps, with the cache of a lane;
  `GraphRuns` is what its runs promise a caller who waits, `GraphConfirm` what stands behind a
  published graph: the confirming scans of the run.
- **Admission** — `Supervisor` is the slot protocol of the MinerU supervisors, with processes that
  may die, fork, write a torn record or be rebooted away at any step. A launch is two steps, the
  fork and the execution of the command, which makes the run's tag visible. `SupervisorRuns` is
  what the slot records guarantee on sighted runs, `SlotLocks` what the inherited locks guarantee
  on all of them, `SupervisorRecovery` when admission goes on after a crash or a reboot.
- **Governance** — `Supersedes` is the cycle walk, `Governance` the validator, `GovernanceOps` the
  mutations with optimistic revisions. `GovernanceRuns` is activation and what every run keeps,
  `GovernanceEffects` exactly when each other mutation commits and what it changes.
  `GovernanceJournal` is the two-file commit with its crashes and reruns, `GovernancePlan` what a
  finished one has done to the two registries.
- **Task graph** — `KanbanGraph` is the desired graph of an ingest workflow, `KanbanParents` which
  nodes it has, what each waits for and which of them a stage opens, told from the workflow record.
  `KanbanDispatch` is what a blocked node takes down and in which order cards are archived.
- **Retry grants** — `RecoveryGrants` is the grant of one retry, `RecoveryEvidence` on which
  evidence it is given or refused, `RecoveryRuns` the bounds over every schedule of operators and
  the automatic controller, `RecoveryProgress` how the controller finishes an intent.
- **Query** — `Fusion` is candidate fusion, `FusionScope` its steps told from the records,
  `FusionSelectors` when the retained selectors are distinct. `Excerpts` and `DeliveryPacking` are
  the delivery budget, `ExcerptChoice` which blocks an excerpt keeps, `DeliveryRounds` what each
  cut and round does. `OutputSize` is the two loops that record an output's own size, `TraceSweep`
  the overlap accounting.
- **Provenance** — `Provenance` and `ProvenancePages` are the tool-owned block of a page and the
  text around it.

Code that changes things in place is a class, an array algorithm or a loop, proved against a
function of the old state; the results are then proved about those functions. Lemmas switch
automatic induction off, so every induction is written out.

## Assumptions

- A hash function may collide; `GraphDigest` assumes only that the strings hashed for the two scans
  compared do not. Elsewhere equal digests stand for equal content (`RecoveryGrants`), and ids
  derived from truncated fingerprints are taken to be distinct.
- Replacing a file and taking an exclusive lock are atomic. A crash can fall between any two file
  replacements. The slot records of `Supervisor`, which are written in place, can be torn.
- A thread waiting in `derive` is not interrupted asynchronously; an abandoned head ticket would
  stall its lane.
- One scan of `/proc` for a run tag is atomic, and the processes of a run keep the tag they
  inherit. A process identity (pid with start time), a run token and an event id are never used
  twice. All supervisors use the same `max_concurrent`.
- Times are whole nanoseconds and shares whole numbers, before any rounding for display.

## What turned out not to hold

- Two sections with the same id: an update reaches the first, a reconciliation keeps the last, so
  an output can be lost. The condition is that ids are distinct: `LedgerRuns.SafeNamesKeepOutputs`
  and `LedgerRuns.UnsafeNamesLoseOutput` give it for any ledger, `LedgerRuns.SafeMeansDistinct`
  for the sections the program builds.
- A supervisor killed between the fork and the execution of its command leaves a child that no
  scan for tags can find. A scrub that looks at that moment is blind: it removes the record, and
  the child becomes a live tagged process without one. `SupervisorRuns.ScrubSafeExactly` is the
  exact condition; the records carry the argument on the runs without a blind scrub, which are
  called sighted. On the others the slot's lock, inherited from the fork on, still keeps the runs
  apart as long as their processes keep the file open.
- A crash while a slot's record is being written can leave it torn, and nothing ever removes a torn
  record: from then on no run is admitted, in this boot or a later one.
  `SupervisorRecovery.RecoversExactly` gives the condition, `SupervisorRecovery.TornForEver` the
  reason.
- A version whose declared predecessor is the empty string passes the validator, and cannot be
  activated while another version of its document is active; `GovernanceRuns.ActivateExactly`.
- An automatic recovery intent does not always complete: after its request is saved, a crash and
  any other mutation of the workflow leave it pending for ever. `RecoveryRuns.OutdatedForEver`
  and `RecoveryRuns.ApplySettlesExactly`.
- Fused candidates do not always name each section once: a candidate without a section id can
  receive, through a title match, an id that is already retained. `FusionSelectors.UnfaithfulRepeats`
  is an example, for a hierarchical hit without an id; `FusionSelectors.DistinctExactly` is the
  exact condition on the run and `FusionSelectors.ApartDistinct` a condition on the inputs.
- A block whose rows contain marker text makes the page unreadable;
  `Provenance.AuthoredTextKeptExactly` is an equivalence.
- A trace that starts before time zero is never `sequential`; `TraceSweep.SequentialExactly`
  includes that case.

## Model

| member | source | states |
|---|---|---|
| TextLines.TwoViewsOfOneText | hermes-obsidian-controlled-ingest/scripts/manage_bundle_ingest.py:200 | splitting with and without terminators gives the same number of lines, and the lines with terminators put together are the text |
| TextShape.LinesExactly | hermes-obsidian-controlled-ingest/scripts/manage_bundle_ingest.py:200 | both ways of splitting a text break it exactly at its line breaks, CR LF being one, and only the last line may lack its terminator |
| TextShape.BreaksAre | hermes-obsidian-controlled-ingest/scripts/manage_bundle_ingest.py:200 | the ten characters that end a line |
| TextShape.HeadingExactly | hermes-obsidian-controlled-ingest/scripts/convert_pdf_with_mineru_bundle.py:905-909 | a line opens a section exactly when it is one to six `#`, whitespace and at least one more character; the title is what follows the `#`, stripped |
| Outline.UnusedName | hermes-obsidian-controlled-ingest/scripts/convert_pdf_with_mineru_bundle.py:911-917 | the suffix loop ends and returns the first candidate not used before |
| Outline.BuildOutline | hermes-obsidian-controlled-ingest/scripts/convert_pdf_with_mineru_bundle.py:891-944 | the entries are the document's headings; each has the nearest lower heading before it as parent, the path to it, a new id, and ends before the next heading of its level or a lower one |
| Outline.IdsDistinct | hermes-obsidian-controlled-ingest/scripts/convert_pdf_with_mineru_bundle.py:911-917 | no two sections of an outline share an id |
| Ownership.OutlineWellBuilt | hermes-obsidian-controlled-ingest/scripts/convert_pdf_with_mineru_bundle.py:919-944 | every outline has ordered headings, distinct ids, nearest-lower parents and look-ahead ends |
| Ownership.ChildInsideParent | hermes-obsidian-controlled-ingest/scripts/convert_pdf_with_mineru_bundle.py:919-944 | a child's scope begins after its parent's heading and ends within the parent's scope |
| Ownership.SiblingsDisjoint | hermes-obsidian-controlled-ingest/scripts/convert_pdf_with_mineru_bundle.py:919-944 | two sections with the same parent share no line |
| Ownership.DeepestIsHighest | hermes-obsidian-controlled-ingest/scripts/convert_pdf_with_mineru_bundle.py:951-957 | the deepest section of a line is the last heading at or before the line |
| Ownership.EntriesAccepted | hermes-obsidian-controlled-ingest/scripts/manage_bundle_ingest.py:100-110 | the range check of a ledger entry accepts every section of an outline |
| ContentRanges.OwnedExact | hermes-obsidian-controlled-ingest/scripts/manage_bundle_ingest.py:150-169 | for any children inside the scope, in any order and overlapping at will, the owned ranges are sorted, apart, and cover exactly the scope minus the children |
| ContentRanges.SeparatedUnique | hermes-obsidian-controlled-ingest/scripts/manage_bundle_ingest.py:160-169 | a set of lines has only one such list of ranges, so the result is determined |
| ContentRanges.OwnedRanges | hermes-obsidian-controlled-ingest/scripts/manage_bundle_ingest.py:160-169 | the cursor loop computes the ranges OwnedExact is about |
| ContentRanges.ChildrenInOrder | hermes-obsidian-controlled-ingest/scripts/manage_bundle_ingest.py:142-149 | a section's children are exactly the sections that name it as parent, in order |
| ContentRanges.AssignContentRanges | hermes-obsidian-controlled-ingest/scripts/manage_bundle_ingest.py:142-172 | in place over the ledger's sections: children linked in order, owned ranges and the unit flag set; or the first child outside its parent reported, of the first such parent, with the sections before that parent done |
| Ownership.NeverRefused | hermes-obsidian-controlled-ingest/scripts/manage_bundle_ingest.py:157-158 | on an outline the check that a child lies inside its parent never fails |
| Ownership.OwnsToNextHeading | hermes-obsidian-controlled-ingest/scripts/manage_bundle_ingest.py:142-172 | after the assignment each outline section owns one range: its heading to the line before the next heading, or to the end |
| Ownership.OwnedRangesPartition | README.md:188 | every line from the first heading on is owned by exactly one section, the deepest one that contains it |
| Ownership.OwnedTextConserved | README.md:188 | the owned texts in order, after what precedes the first heading, are the document text |
| Ownership.SectionsOfText | hermes-obsidian-controlled-ingest/scripts/manage_bundle_ingest.py:142-172 | outline and assignment run one after the other on any text end in sections that own exactly these ranges |
| SectionLedger.LedgerFile.Init | hermes-obsidian-controlled-ingest/scripts/manage_bundle_ingest.py:304-393 | `init` stores the first build or the reconciliation with the stored ledger, and changes nothing on a bundle of another source |
| SectionLedger.LedgerFile.Update | hermes-obsidian-controlled-ingest/scripts/manage_bundle_ingest.py:631-685 | `update` edits the first section with the id, adds one history entry, and changes nothing when refused |
| LedgerRuns.RevisionIsHistoryLength | hermes-obsidian-controlled-ingest/scripts/manage_bundle_ingest.py:316-393 | over every run the revision is the history length and entry i has revision i + 1 |
| LedgerEffects.ReconciledExactly | hermes-obsidian-controlled-ingest/scripts/manage_bundle_ingest.py:273-351 | a reconciliation is refused exactly on another source; else each section takes over outputs, QA items and, with its content unchanged, status, notes and previous status from the last one with its id, a changed one restarts (pending and QA stay, all else is stale) with a note, the removed ones join the orphans as stale, once each, and the history names the changed ones in order |
| LedgerEffects.AllowedExactly | hermes-obsidian-controlled-ingest/scripts/manage_bundle_ingest.py:22-29 | a transition is allowed exactly when the table has it |
| LedgerEffects.UpdateExactly | hermes-obsidian-controlled-ingest/scripts/manage_bundle_ingest.py:631-655 | an update succeeds exactly at the expected revision, on a known ingest unit whose new status the table allows, with an output for ingested, a note for skipped and a reason for QA |
| LedgerEffects.UpdateEffect | hermes-obsidian-controlled-ingest/scripts/manage_bundle_ingest.py:657-685 | it changes one section, whose lists gain the new values once each in the order given, and adds one revision and one line of history |
| LedgerRuns.IngestedContentUnchanged | hermes-obsidian-controlled-ingest/scripts/manage_bundle_ingest.py:273-301 | a section marked ingested has kept the content it had when an update ingested it, with an output recorded |
| LedgerRuns.CompleteExactly | hermes-obsidian-controlled-ingest/scripts/manage_bundle_ingest.py:232-301 | after a reconciliation the ledger reads blocked exactly when the bundle is not valid, complete exactly when it is, has an ingest unit, and every unit was finished before with the content it has now, and stale exactly when it is and a unit on which work had begun has changed |
| LedgerRuns.NoOutputLost | hermes-obsidian-controlled-ingest/scripts/manage_bundle_ingest.py:331-351 | when no bundle repeats an id, an output recorded at any point stays in the sections or the orphaned ones for ever |
| LedgerRuns.SafeNamesKeepOutputs | hermes-obsidian-controlled-ingest/scripts/manage_bundle_ingest.py:326-351 | the same over every run, with repeated ids too, as long as no repeated id has an ingest unit as its first section |
| LedgerRuns.SafeMeansDistinct | hermes-obsidian-controlled-ingest/scripts/manage_bundle_ingest.py:142-172 | on the sections the program builds that condition means that the ids are distinct, because children are handed to the last section with an id and an earlier one owns its whole scope |
| LedgerRuns.UnsafeNamesLoseOutput | hermes-obsidian-controlled-ingest/scripts/manage_bundle_ingest.py:616-620 | on any bundle that breaks it, one update and one reconciliation lose an output |
| GraphDigest.FrameDecodes | hermes-obsidian-controlled-ingest/lib/ingest_graph_reuse.py:108-112 | the length-prefixed framing is uniquely decodable: equal streams have the same names and file digests |
| GraphDigest.DigestDeterminesScan | hermes-obsidian-controlled-ingest/lib/ingest_graph_reuse.py:108-112 | equal scan digests mean equal names and bytes, unless strings hashed for the two scans collide |
| GraphDigest.ScanDigest | hermes-obsidian-controlled-ingest/lib/ingest_graph_reuse.py:61-119 | the running hash is the digest of the framed scan |
| GraphReuse.RunKeeps | hermes-obsidian-controlled-ingest/lib/ingest_graph_reuse.py:205-242 | the protocol invariant holds in every reachable state of every interleaving |
| GraphReuse.ExactlyOnePlace | hermes-obsidian-controlled-ingest/lib/ingest_graph_reuse.py:214-242 | a ticket is pending, in the active cohort or resolved, and in exactly one of them, once |
| GraphReuse.OneLeader | hermes-obsidian-controlled-ingest/lib/ingest_graph_reuse.py:217-222 | a lane has at most one leader |
| GraphRuns.ResolvedFreshAndFaithful | hermes-obsidian-controlled-ingest/lib/ingest_graph_reuse.py:122-242 | after the ticket was enqueued its lane's leader began, and for a success ended, a scan in this very run; the success, hit or miss, is the pure build of exactly the files of that scan; the whole cohort, the first one closed after the enqueueing, has the same outcome |
| GraphReuse.HitIsOwnScan | hermes-obsidian-controlled-ingest/lib/ingest_graph_reuse.py:122-155 | a cache hit returns what building on this cohort's own scan would |
| GraphReuse.NoLostWakeup | hermes-obsidian-controlled-ingest/lib/ingest_graph_reuse.py:216-238 | in an inactive lane with pending tickets the owner of the first is not asleep |
| GraphRuns.LeftBounded | hermes-obsidian-controlled-ingest/lib/ingest_graph_reuse.py:214-242 | an unresolved ticket has between one and eleven steps of its lane left, a resolved one none |
| GraphRuns.NeverFurther | hermes-obsidian-controlled-ingest/lib/ingest_graph_reuse.py:205-242 | no action of any caller, an arrival included, adds a step |
| GraphRuns.ServedCloser | hermes-obsidian-controlled-ingest/lib/ingest_graph_reuse.py:205-242 | every step of its own lane takes one off |
| GraphRuns.NeverStuck | hermes-obsidian-controlled-ingest/lib/ingest_graph_reuse.py:214-242 | while a ticket is unresolved its own lane can take a step |
| GraphRuns.ResolvedWithinTwoRounds | hermes-obsidian-controlled-ingest/lib/ingest_graph_reuse.py:214-242 | on every run, however many callers keep arriving, a ticket is resolved once its lane has taken eleven steps: one earlier cohort's and its own |
| GraphRuns.EveryActionCloser | hermes-obsidian-controlled-ingest/lib/ingest_graph_reuse.py:214-242 | every step but a new arrival makes the remaining work of all lanes strictly smaller, so without arrivals every run ends |
| GraphReuse.LaneCache.Calculate | hermes-obsidian-controlled-ingest/lib/ingest_graph_reuse.py:122-155 | a lookup with the cached contract and digest returns the cached nodes; else the build is returned and stored exactly when the confirming scan has the digest of the first one, and otherwise the call fails and the cache is as before |
| GraphConfirm.RunFrom | hermes-obsidian-controlled-ingest/lib/ingest_graph_reuse.py:122-242 | over every run the cache and the phase of a lane are what its leader's actions alone say they are |
| GraphConfirm.ConfirmationDecides | hermes-obsidian-controlled-ingest/lib/ingest_graph_reuse.py:146-155 | on every run a confirming scan with the digest of the scan built on gives the whole cohort that build and stores it; one with another digest fails the whole cohort and leaves the cache as the lookup found it |
| GraphConfirm.LookupDecides | hermes-obsidian-controlled-ingest/lib/ingest_graph_reuse.py:138-145 | on every run a lookup publishes at once exactly when its scan has the contract and digest of the last scan vouched for by a confirmation of the lane, and then the cohort gets what was built from that one |
| GraphConfirm.SuccessConfirmed | hermes-obsidian-controlled-ingest/lib/ingest_graph_reuse.py:122-242 | between the end of its scan and its publishing every published success has a confirming scan with its proof's digest, or the lookup of a scan vouched for by an earlier confirmation |
| Supervisor.RunKeeps | hermes-obsidian-controlled-ingest/scripts/supervise_mineru.py:130-212 | after any sequence of steps, crashes and reboots: records name distinct runs, a live supervisor that has a run owns its record, and only one is inside the admission lock |
| Supervisor.NoRecordOverwritten | hermes-obsidian-controlled-ingest/scripts/supervise_mineru.py:161-179 | a record is removed before its slot is written again: no step overwrites one |
| SupervisorRuns.AdmissionPossible | hermes-obsidian-controlled-ingest/scripts/supervise_mineru.py:130-190 | from the first boot a run can be admitted, recorded and launched; `SupervisorRecovery` says when one can be later on |
| SupervisorRecovery.OccupiedIsCurrent | hermes-obsidian-controlled-ingest/scripts/supervise_mineru.py:145-164 | a supervisor that chooses a slot counts as occupied exactly the slots with a record, and each of those is a readable record of this boot |
| SupervisorRecovery.RebootKills | hermes-obsidian-controlled-ingest/scripts/supervise_mineru.py:145-151 | a reboot leaves nobody alive and every record where it was, and none of them is a record of the new boot |
| SupervisorRecovery.NewRunAfterDeath | hermes-obsidian-controlled-ingest/scripts/supervise_mineru.py:145-190 | from every reachable state in which nobody is alive and no record is torn, one new supervisor's steps reach a tagged process of a new run |
| SupervisorRecovery.TornForEver | hermes-obsidian-controlled-ingest/scripts/supervise_mineru.py:145-151 | a torn record is never removed, and no run is admitted after it |
| SupervisorRecovery.RecoversExactly | hermes-obsidian-controlled-ingest/scripts/supervise_mineru.py:145-190 | after everybody has died, by a reboot or otherwise, a new run can be reached exactly when no record is torn |
| SupervisorRecovery.TakenWhenRoom | hermes-obsidian-controlled-ingest/scripts/supervise_mineru.py:164-173 | on a sighted run, while there are fewer records than slots, a supervisor that chooses can take one unless another is about to close its slot's file |
| SupervisorRuns.LiveRunIsRecorded | hermes-obsidian-controlled-ingest/scripts/supervise_mineru.py:145-179 | on a sighted run, a run with a live process, tagged or not, however deep a descendant, has its record of this boot in the one slot it was put into |
| SupervisorRuns.OneRunPerSlot | hermes-obsidian-controlled-ingest/scripts/supervise_mineru.py:145-179 | on a sighted run, of all the runs ever put into a slot at most one has live processes |
| SupervisorRuns.BoundedConcurrency | hermes-obsidian-controlled-ingest/scripts/supervise_mineru.py:145-179 | on a sighted run at most `max_concurrent` runs have a live process |
| SupervisorRuns.ScrubSafeExactly | hermes-obsidian-controlled-ingest/scripts/supervise_mineru.py:49-69 | a scrub and the removal it leads to leave every live run recorded exactly when the scrub was sighted |
| SupervisorRuns.BlindScrubLosesRecord | hermes-obsidian-controlled-ingest/scripts/supervise_mineru.py:152-155 | after a blind one the child executes its command as a tagged process that has no record |
| SupervisorRuns.BlindScrubReachable | hermes-obsidian-controlled-ingest/scripts/supervise_mineru.py:186-187 | a supervisor killed inside `Popen` leaves the next one such a scrub |
| SlotLocks.HoldersShareRun | hermes-obsidian-controlled-ingest/scripts/supervise_mineru.py:167-173 | on every run, blind scrubs included, all processes that hold one slot's file belong to one run |
| SlotLocks.OneHoldingRunPerSlot | hermes-obsidian-controlled-ingest/scripts/supervise_mineru.py:167-187 | on every run, of the runs ever put into a slot at most one has live processes that hold a slot's file, and it is that slot's |
| SlotLocks.BoundedHoldingRuns | hermes-obsidian-controlled-ingest/scripts/supervise_mineru.py:164-187 | on every run at most `max_concurrent` runs have live processes that hold their slot's file |
| Supersedes.AcyclicMeansHalting | hermes-obsidian-controlled-ingest/scripts/governance_repository.py:372-381 | the walk from every version ends exactly when a rank exists that falls along every supersedes link |
| Supersedes.FindCycle | hermes-obsidian-controlled-ingest/scripts/governance_repository.py:372-381 | the walk with its seen set reports a cycle exactly when no such rank exists |
| Supersedes.NewEdgeAcyclic | hermes-obsidian-controlled-ingest/scripts/governance_repository.py:739-757 | a new link keeps the graph acyclic exactly when its source cannot be reached from its target |
| Governance.Validate | hermes-obsidian-controlled-ingest/scripts/governance_repository.py:179-418 | the validator reports nothing exactly on the states the registries' rules allow |
| Governance.CheckEvents | hermes-obsidian-controlled-ingest/scripts/governance_repository.py:384-418 | no event issue exactly when every event is well formed, their ids are distinct and their revisions lie between one and the current revision |
| Governance.CheckLinks | hermes-obsidian-controlled-ingest/scripts/governance_repository.py:363-371 | no link issue exactly when every named predecessor is a known version of the same document; an empty name is none |
| GovernanceOps.Repository.MutateVersions | hermes-obsidian-controlled-ingest/scripts/governance_repository.py:436-488 | a mutation commits one event on a valid result at the expected revision, and otherwise changes nothing |
| GovernanceOps.Repository.MutateOrganizations | hermes-obsidian-controlled-ingest/scripts/governance_repository.py:436-488 | the same for the organization registry |
| GovernanceOps.Repository.Activate | hermes-obsidian-controlled-ingest/scripts/governance_repository.py:707-757 | activation is such a mutation, of both affected versions at once |
| GovernanceRuns.ActivateExactly | hermes-obsidian-controlled-ingest/scripts/governance_repository.py:707-757 | on a valid state activation changes something exactly when revision and event are right, the target is known, not active, not withdrawn, completed and approved, and, if another version is active, the target declares no predecessor at all or that version, and is not reachable along its chain |
| GovernanceRuns.ActivationEffect | hermes-obsidian-controlled-ingest/scripts/governance_repository.py:724-757 | afterwards the target alone is active, names the version it replaced, which is superseded, and nothing else changed |
| GovernanceRuns.DemotionRefused | hermes-obsidian-controlled-ingest/scripts/governance_repository.py:521-545 | an organization behind an active version cannot be demoted |
| GovernanceEffects.RegisterExactly | hermes-obsidian-controlled-ingest/scripts/governance_repository.py:547-580 | a version is registered exactly when it is in order by itself, shares no id, resource, content, active place or occurrence id with another, and names a registered predecessor of its document or none |
| GovernanceEffects.RegisterEffect | hermes-obsidian-controlled-ingest/scripts/governance_repository.py:547-580 | it is appended, with one event and one revision |
| GovernanceEffects.AddSourceExactly | hermes-obsidian-controlled-ingest/scripts/governance_repository.py:582-616 | a source is added exactly when it is well formed, its organization is known (approved, for an active version) and its occurrence id is used nowhere in the registry |
| GovernanceEffects.AddSourceEffect | hermes-obsidian-controlled-ingest/scripts/governance_repository.py:582-616 | the version gains it at the end of its sources, and nothing else changes |
| GovernanceEffects.SetStatusExactly | hermes-obsidian-controlled-ingest/scripts/governance_repository.py:618-658 | a status update commits exactly when it changes something, does not make the version active or superseded, and does not reopen an active version |
| GovernanceEffects.SetStatusEffect | hermes-obsidian-controlled-ingest/scripts/governance_repository.py:618-658 | the version takes the fields given and keeps all others, and nothing else changes |
| GovernanceEffects.FinishExactly | hermes-obsidian-controlled-ingest/scripts/governance_repository.py:660-705 | a finished ingest commits exactly when it is completed or failed, the content is the version's own, its processing is another one and it is not active |
| GovernanceEffects.FinishEffect | hermes-obsidian-controlled-ingest/scripts/governance_repository.py:660-705 | the version takes the result, and nothing else changes |
| GovernanceEffects.AddOrganizationExactly | hermes-obsidian-controlled-ingest/scripts/governance_repository.py:494-519 | an organization is added exactly when it is well formed and shares neither id nor label with another |
| GovernanceEffects.AddOrganizationEffect | hermes-obsidian-controlled-ingest/scripts/governance_repository.py:494-519 | it is appended, with one event and one revision |
| GovernanceEffects.SetOrganizationStatusExactly | hermes-obsidian-controlled-ingest/scripts/governance_repository.py:521-545 | a status commits exactly when it is another one and, unless it is approval, no active version comes from the organization |
| GovernanceEffects.SetOrganizationStatusEffect | hermes-obsidian-controlled-ingest/scripts/governance_repository.py:521-545 | the organization takes it, and nothing else changes |
| GovernanceEffects.RunOrderly | hermes-obsidian-controlled-ingest/scripts/governance_repository.py:271-371 | over every run each version is in order, two versions share neither id, resource, content, active place nor occurrence id, and a named predecessor is registered for the document |
| GovernanceRuns.ActiveStaysCompleted | hermes-obsidian-controlled-ingest/scripts/governance_repository.py:660-705 | an active version's processing cannot be set to failed |
| GovernanceRuns.RunValid | hermes-obsidian-controlled-ingest/scripts/governance_repository.py:436-488 | every state of every run from the empty registry is valid |
| GovernanceRuns.RunSound | hermes-obsidian-controlled-ingest/scripts/governance_repository.py:271-361 | over every run: one active version per document, each completed with approved sources; resource ids and hashes name one version |
| GovernanceRuns.RevisionsCountEvents | hermes-obsidian-controlled-ingest/scripts/governance_repository.py:384-418 | over every run the revision is the number of events and event i carries revision i + 1 |
| GovernanceRuns.VersionsImmutable | hermes-obsidian-controlled-ingest/scripts/governance_repository.py:547-757 | a registered version keeps its place, ids and hash and never loses a source, over every run |
| GovernanceJournal.HalfwayValid | hermes-obsidian-controlled-ingest/scripts/source_governance_resolution.py:165-190 | with the organizations written and the versions not, the state is still accepted, because organizations only gain entries or become approved |
| GovernanceJournal.Journal.Run | hermes-obsidian-controlled-ingest/scripts/source_governance_resolution.py:133-201 | one call, cut off before any of its writes, does to the disk what the specification says; `GovernancePlan` is what a finished one has done |
| GovernanceJournal.ResolveStaysOnTrack | hermes-obsidian-controlled-ingest/scripts/source_governance_resolution.py:144-201 | wherever calls of one request crash, the files are (before, before), (after, before) or (after, after) |
| GovernanceJournal.RerunConverges | hermes-obsidian-controlled-ingest/scripts/source_governance_resolution.py:144-201 | after any number of crashed calls, one whole call ends at (after, after) with one receipt, and further calls write nothing |
| GovernanceJournal.ForeignCommitSpoils | hermes-obsidian-controlled-ingest/scripts/source_governance_resolution.py:176-190 | another writer's commit before the receipt leaves an event the plan does not have |
| GovernancePlan.ResolutionEffect | hermes-obsidian-controlled-ingest/scripts/source_governance_resolution.py:155-201 | however its calls crashed, when a resolution is finished each resolved row's version is active with one occurrence per mapping and identity in order, unless a later row's version supersedes it; active versions that resolved ones supersede are superseded; the organizations of resolved rows are approved or added; every other version and organization is as it was, and each registry has one event more |
| GovernancePlan.AllSourcesExactly | hermes-obsidian-controlled-ingest/scripts/source_governance_resolution.py:164-173 | a version's new occurrences are, in order, one per mapping and resolved identity, with that organization, the original id for the first identity of a mapping and the derived one after |
| GovernancePlan.IdentitiesInOrder | hermes-obsidian-controlled-ingest/scripts/source_governance_resolution.py:161-170 | the identities admitted are those of the resolved rows, in the order of rows, mappings and identities |
| GovernancePlan.AdmittedExactly | hermes-obsidian-controlled-ingest/scripts/source_governance_resolution.py:160-170 | each identity's organization is approved, a new one is added once under its first name, and all others keep their place and content |
| GovernancePlan.WritesOnlyWhenAllowed | hermes-obsidian-controlled-ingest/scripts/source_governance_resolution.py:146-199 | a call writes only for the journaled request, or for one at the current revisions of a valid state, and only while neither file has drifted |
| GovernanceJournal.SpoiledForever | hermes-obsidian-controlled-ingest/scripts/source_governance_resolution.py:176-201 | from then on, whatever else is committed, no rerun changes a file or issues a receipt |
| KanbanGraph.DesiredGraph | hermes-obsidian-controlled-ingest/lib/ingest_kanban.py:187-309 | the builder's loops and early returns produce the graph that `KanbanParents` tells from the workflow record |
| KanbanGraph.DesiredParentsFirst | hermes-obsidian-controlled-ingest/lib/ingest_kanban.py:187-309 | every desired graph, the staged prefix included, lists each parent before its children, so the lookup of parent fingerprints always succeeds |
| KanbanParents.FullGraphTold | hermes-obsidian-controlled-ingest/lib/ingest_kanban.py:240-309 | every node of the full graph is one the record calls for and waits for exactly what the record says: a reducer for the pass slice s exactly when a live task of its resource is listed last in s and is not one with its own passes in a partly excluded s, the global reduction for all reducers, each later node for the one before; exactly the two checkpoints are gates |
| KanbanParents.FullGraphNames | hermes-obsidian-controlled-ingest/lib/ingest_kanban.py:240-309 | and nothing the record calls for is missing: one pass per slice, one reducer per resource of a live task, the fixed nodes, and the provider sync exactly when it is asked for |
| KanbanParents.ParentsInOrder | hermes-obsidian-controlled-ingest/lib/ingest_kanban.py:267-269 | a reducer's parents come once each, in the order of their slice ids |
| KanbanParents.OpensExactly | hermes-obsidian-controlled-ingest/lib/ingest_kanban.py:243-309 | a staged workflow has exactly the nodes of the full graph that its stage has reached, an automatic one in its first stage the pass slices, any other the full graph |
| KanbanParents.NarrowedExactly | hermes-obsidian-controlled-ingest/lib/ingest_kanban.py:228-242 | waiting for review or paused at the plan there is no node; a running revision or a canary has exactly its own slices, free of parents |
| KanbanParents.PlanExactly | hermes-obsidian-controlled-ingest/lib/ingest_kanban.py:211-226 | without a batch there is one free node per source, in order, and the plan waits for all of them |
| KanbanGraph.CanaryCutClosed | hermes-obsidian-controlled-ingest/lib/ingest_kanban.py:1752-1755 | the canary filter leaves no node with a missing parent |
| KanbanParents.CanaryCutExactly | hermes-obsidian-controlled-ingest/lib/ingest_kanban.py:1752-1755 | it keeps exactly the selected pass slices, in order |
| KanbanDispatch.DesiredDistinct | hermes-obsidian-controlled-ingest/lib/ingest_kanban.py:187-309 | when slice ids and source digests are distinct, no two nodes of a desired graph share a name |
| KanbanDispatch.MarkedExactly | hermes-obsidian-controlled-ingest/lib/ingest_kanban.py:1979-1982 | one forward pass marks exactly the transitive dependents |
| KanbanDispatch.DesiredMarkedExactly | hermes-obsidian-controlled-ingest/lib/ingest_kanban.py:1979-1982 | so it does on every desired graph |
| KanbanParents.ReleaseWaitsForSlices | hermes-obsidian-controlled-ingest/lib/ingest_kanban.py:266-303 | both gates, the release and the acceptance wait for a pass slice exactly when a live task of some resource needs it |
| KanbanParents.BlockedSliceHoldsRelease | hermes-obsidian-controlled-ingest/lib/ingest_kanban.py:1979-1990 | while a slice is blocked the pass marks all four exactly when a live task needs the slice |
| KanbanDispatch.Board.Archive | hermes-obsidian-controlled-ingest/lib/ingest_kanban.py:519-528 | archives the card's subtree and nothing else, each card once, children before parents |
| KanbanDispatch.Board.TakeDown | hermes-obsidian-controlled-ingest/lib/ingest_kanban.py:1979-1990 | every dependent gets its failure record before the first archive; then all of them are archived, children first, and only cards under them; when the board's own links go with the graph, a marked node is archived before each marked node it waits for |
| KanbanDispatch.NothingPromoted | hermes-obsidian-controlled-ingest/lib/ingest_kanban.py:519-528 | at no moment does an archived card have a child still open |
| RecoveryGrants.Controller.RecoverPassExecution | hermes-obsidian-controlled-ingest/lib/ingest_kanban.py:1380-1587 | one call, cut off before either of its writes, does to the disk what the specification says; `RecoveryEvidence` is what it rests on |
| RecoveryGrants.DecidedFits | hermes-obsidian-controlled-ingest/lib/ingest_kanban.py:1453-1492 | a grant that passes the audit repeats no recovery id, no scope of a slice (for citation packets: no cause), and is mechanical only as the slice's first |
| RecoveryEvidence.GrantedExactly | hermes-obsidian-controlled-ingest/lib/ingest_kanban.py:1403-1586 | a call is granted exactly when its nodes are distinct and its id unused, the revision is the expected one and the batch ready, every entry's slice is known, cancelled, observed with exactly the failure named and proved, no earlier grant of the slice has the scope (for citation packets: the cause; for mechanical retries: there is none at all), no different report stands under the id, and it is not cut off |
| RecoveryEvidence.GrantEffect | hermes-obsidian-controlled-ingest/lib/ingest_kanban.py:1573-1587 | a granted call has written the report of exactly the nodes, failures and proofs in the request's order, one record that names them, and the next revision |
| RecoveryEvidence.OtherEffect | hermes-obsidian-controlled-ingest/lib/ingest_kanban.py:1574-1586 | any other call has written nothing, or, cut off between its two writes, that report alone |
| RecoveryEvidence.RecordedExactly | hermes-obsidian-controlled-ingest/lib/ingest_kanban.py:1403-1411 | a well-formed request whose id is recorded is replayed when it is the recorded one, and otherwise a conflict |
| RecoveryEvidence.RefusedEarly | hermes-obsidian-controlled-ingest/lib/ingest_kanban.py:1395-1430 | the refusals come in this order: the shape of the request, the revision, the state of the batch |
| RecoveryEvidence.RefusedByEntry | hermes-obsidian-controlled-ingest/lib/ingest_kanban.py:1442-1555 | past those the first entry that is not in order decides, and why: not cancelled, spent, stale, or not allowed |
| RecoveryEvidence.RefusedByReport | hermes-obsidian-controlled-ingest/lib/ingest_kanban.py:1579-1580 | with every entry in order a different report under the id is a conflict |
| RecoveryGrants.RecoverKeepsInv | hermes-obsidian-controlled-ingest/lib/ingest_kanban.py:1403-1411 | every call, wherever it crashes, keeps these bounds and the records' agreement with their reports |
| RecoveryRuns.RerunCompletes | hermes-obsidian-controlled-ingest/lib/ingest_kanban.py:1574-1586 | a call that crashed and is repeated on the same evidence ends as if it had not crashed; a third call replays |
| RecoveryRuns.RerunElseConflicts | hermes-obsidian-controlled-ingest/lib/ingest_kanban.py:1574-1579 | repeated after its report was written, on anything that would decide differently, it is refused and writes nothing: as a conflict if it would grant, and otherwise for its own reason |
| RecoveryRuns.GrantsPerSlice | hermes-obsidian-controlled-ingest/lib/ingest_kanban.py:1453-1492 | a slice gets at most eleven grants |
| RecoveryRuns.RerunGrantedExactly | hermes-obsidian-controlled-ingest/lib/ingest_kanban.py:1574-1586 | repeated after its report was written, it is granted exactly when the batch is still ready, every entry still stands on current evidence and every proof is the one the first call saw; else it writes nothing |
| RecoveryRuns.GrantsBounded | hermes-obsidian-governed-ingest-orchestrator/lib/automatic_pass_recovery.py:102-161 | over every schedule of operators, controller, crashes and restarts: one record per recovery id, one grant per slice and key, mechanical only in front, and at most eleven times the number of slices in all |
| RecoveryRuns.IntentHolds | hermes-obsidian-governed-ingest-orchestrator/lib/automatic_pass_recovery.py:119-161 | while an intent is pending no crash or restart replaces it, and it is unlinked only when each of its retries has the record of its saved request |
| RecoveryRuns.SavedRequestsFit | hermes-obsidian-governed-ingest-orchestrator/lib/automatic_pass_recovery.py:138-144 | over every schedule a saved request asks for exactly the retry its intent names: one entry with the slice and the failure, and the scope of the kind |
| RecoveryRuns.SameIntentOnlyReplays | hermes-obsidian-governed-ingest-orchestrator/lib/automatic_pass_recovery.py:138-145 | applying a saved request again once it is recorded changes nothing |
| RecoveryRuns.ApplySettlesExactly | hermes-obsidian-governed-ingest-orchestrator/lib/automatic_pass_recovery.py:138-144 | applying a saved request leaves it recorded exactly when it was recorded, or its id is unused, the workflow has not changed since it was saved, the batch is ready, the slice is cancelled with the very failure the intent was made for and proved, no grant of it is in the way, no different report stands under the id and the call is not cut off |
| RecoveryProgress.IntentCompletes | hermes-obsidian-governed-ingest-orchestrator/lib/automatic_pass_recovery.py:119-161 | started on an intent, new or left by a crash, none of whose retries has begun and whose evidence stands, a controller that is not interrupted gets every retry recorded for the very slice, failure and scope, and unlinks the intent |
| RecoveryRuns.CrashOutdates | hermes-obsidian-governed-ingest-orchestrator/lib/automatic_pass_recovery.py:138-144 | a crash after the saving and one other mutation of the workflow make the saved request outdated |
| RecoveryRuns.OutdatedForEver | hermes-obsidian-governed-ingest-orchestrator/lib/automatic_pass_recovery.py:124-160 | from then on, over every schedule, its intent stays pending and is never unlinked |
| Fusion.RangesFor | hermes-obsidian-controlled-query/scripts/retrieve_query_scope.py:54-71 | the loop reads the ranges the next two rows describe |
| Fusion.RangesExactly | hermes-obsidian-controlled-query/scripts/retrieve_query_scope.py:54-71 | a range is read exactly when it is that of a usable item, or, without any usable item, the usable span of the record itself |
| Fusion.ReadInOrder | hermes-obsidian-controlled-query/scripts/retrieve_query_scope.py:54-62 | ranges come in the order of their items |
| Fusion.OverlapIsSharedLine | hermes-obsidian-controlled-query/scripts/retrieve_query_scope.py:74-75 | two range lists overlap exactly when they share a line |
| Fusion.FindBestSection | hermes-obsidian-controlled-query/scripts/retrieve_query_scope.py:93-102 | the loop finds the section BestIsLeast is about, or none when no section overlaps |
| Fusion.BestIsLeast | hermes-obsidian-controlled-query/scripts/retrieve_query_scope.py:93-102 | no overlapping section is narrower, or as narrow and deeper, or equal in both with a smaller id |
| Fusion.MergedLines | hermes-obsidian-controlled-query/scripts/retrieve_query_scope.py:235-243 | a merged candidate covers exactly the lines of both |
| FusionScope.BestExactly | hermes-obsidian-controlled-query/scripts/retrieve_query_scope.py:93-102 | the section of a hit is the first of the narrowest, deepest, smallest-id sections it touches, and there is none exactly when it touches none |
| FusionScope.SharesExactly | hermes-obsidian-controlled-query/scripts/retrieve_query_scope.py:199-214 | two candidates of a document share a scope for naming one section, else for the same title over a common line, else, both without a section, for a common line; and for no other reason |
| FusionScope.CompletesExactly | hermes-obsidian-controlled-query/scripts/retrieve_query_scope.py:217-243 | a merge keeps the target's own section and title where it has them, takes the incoming rank of each incoming route, and lists the ranges of both in order, once each |
| FusionScope.FuseExactly | hermes-obsidian-controlled-query/scripts/retrieve_query_scope.py:246-281 | taken in one by one, an input alone in its scope is retained at the end, and any other completes the first retained one that shares it, with a rejection that says why and into what |
| FusionScope.HierarchicalFirst | hermes-obsidian-controlled-query/scripts/retrieve_query_scope.py:246-253 | the hierarchical hits come first, with their sections and their ranks from one on |
| FusionScope.CoarseAfter | hermes-obsidian-controlled-query/scripts/retrieve_query_scope.py:127-188 | then the coarse hits with theirs, each as a candidate of the best section it touches, or, without one, of its own lines |
| Fusion.FuseCandidates | hermes-obsidian-controlled-query/scripts/retrieve_query_scope.py:246-281 | the fusing loop retains and rejects as `FusionScope.FuseExactly` says |
| Fusion.WorkConserved | hermes-obsidian-controlled-query/scripts/retrieve_query_scope.py:246-281 | retained plus rejected is the number of inputs, and each document keeps exactly the lines and the routes of its inputs |
| FusionSelectors.DistinctExactly | hermes-obsidian-controlled-query/scripts/retrieve_query_scope.py:199-243 | about the run of the loop: retained selectors are distinct exactly when no step merges a candidate into one without an id while its own id is already retained in the document |
| FusionSelectors.ApartDistinct | hermes-obsidian-controlled-query/scripts/retrieve_query_scope.py:199-232 | about the inputs: they are distinct when no candidate without a section id overlaps one with an id in its document |
| FusionSelectors.FaithfulInputsDistinct | hermes-obsidian-controlled-query/scripts/retrieve_query_scope.py:105-188 | when hierarchical candidates carry the projections' own ids and ranges, the retained (document, section) selectors are pairwise distinct |
| FusionSelectors.RejectedHaveSurvivors | hermes-obsidian-controlled-query/scripts/retrieve_query_scope.py:266-276 | a rejected candidate's label names a retained candidate of its document, even after later merges |
| FusionSelectors.UnfaithfulRepeats | hermes-obsidian-controlled-query/scripts/retrieve_query_scope.py:199-232 | without such a condition two retained candidates can name the same section; the example needs a hierarchical hit without an id |
| OutputSize.SettleReceipt | hermes-obsidian-controlled-ingest/lib/ingest_kanban.py:2505-2512 | the unbounded loop always ends, with the least size that is its own measure |
| OutputSize.AttachMetrics | hermes-obsidian-controlled-query/scripts/query_session.py:807-829 | the loop of eight rounds records the size that is emitted and the overhead beyond the evidence, for every output below 10^39 characters |
| OutputSize.FourRounds | hermes-obsidian-controlled-query/scripts/query_session.py:818-828 | four rounds already reach the fixed point |
| TraceSweep.GroupedOverlaps | hermes-obsidian-controlled-query/scripts/manage_query_trace.py:346-386 | the sweep loop over the sorted intervals gives the records SweepExactly is about, and `sequential` is the absence of overlaps |
| TraceSweep.OverlapIsExcess | hermes-obsidian-controlled-query/scripts/manage_query_trace.py:346-386 | the overlaps add up to the sum of the lengths minus the size of the union, whatever order the traces come in |
| TraceSweep.SortedInOrder | hermes-obsidian-controlled-query/scripts/manage_query_trace.py:346-386 | the sweep takes the traces by start, then end, then id, character by character, each as often as it is given |
| TraceSweep.SweepExactly | hermes-obsidian-controlled-query/scripts/manage_query_trace.py:346-386 | there is one record, in order, for each trace that starts before zero or before an earlier end; its partner is the first trace to reach the latest end before it, its duration the time up to the earlier of the two ends |
| TraceSweep.SequentialExactly | hermes-obsidian-controlled-query/scripts/manage_query_trace.py:346-386 | `sequential` holds exactly when, sorted, no trace starts before zero or before an earlier end |
| TraceSweep.OverlapsWitnessed | hermes-obsidian-controlled-query/scripts/manage_query_trace.py:350-362 | every overlap record names two traces and the exact time they share |
| Excerpts.FindHeld | hermes-obsidian-controlled-query/scripts/query_session.py:854-857 | a block holds exactly the terms that occur in it after folding |
| Excerpts.ChooseBlocks | hermes-obsidian-controlled-query/scripts/query_session.py:858-879 | the greedy loop ends with the blocks ChosenExactly and ChosenCoverAll are about |
| Excerpts.ChosenCoverAll | hermes-obsidian-controlled-query/scripts/query_session.py:858-879 | every term that some block holds is held by a chosen block |
| Excerpts.RenderBlocks | hermes-obsidian-controlled-query/scripts/query_session.py:889-902 | the loop writes the parts MarkersWhereLeftOut is about |
| ExcerptChoice.ChosenExactly | hermes-obsidian-controlled-query/scripts/query_session.py:862-879 | the chosen blocks are picked one by one: each holds a missing term and no block left is stronger, by the weight of its missing terms, then of all its terms, then by its place; and they stop when no block holds a missing term |
| ExcerptChoice.WidenedExactly | hermes-obsidian-controlled-query/scripts/query_session.py:881-887 | the blocks kept are the chosen ones, or the first one when there are none, with their neighbours |
| Excerpts.MarkersWhereLeftOut | hermes-obsidian-controlled-query/scripts/query_session.py:889-902 | block by block: the kept blocks in order, and one marker for each run of blocks left out |
| Excerpts.MatchedExcerpt | hermes-obsidian-controlled-query/scripts/query_session.py:848-930 | the excerpt by its cases: whole text, chosen blocks with neighbours, ranked packing, window |
| ExcerptChoice.RankedExactly | hermes-obsidian-controlled-query/scripts/query_session.py:907-913 | the ranking lists exactly those blocks, once each, by falling weight and the earlier first among equals |
| ExcerptChoice.PackedExactly | hermes-obsidian-controlled-query/scripts/query_session.py:914-919 | a ranked block is packed exactly when nothing is packed before it or the text with it stays within the limit |
| ExcerptChoice.WindowExactly | hermes-obsidian-controlled-query/scripts/query_session.py:924-930 | the last resort is a piece of the text with the anchor a third of the way in, or from the start, between two markers, as long as the limit allows |
| ExcerptChoice.ExcerptCases | hermes-obsidian-controlled-query/scripts/query_session.py:850-930 | which of these texts the excerpt is |
| Excerpts.ExcerptWithinLimit | hermes-obsidian-controlled-query/scripts/query_session.py:848-930 | no branch exceeds the limit |
| Excerpts.FittingExcerptCovers | hermes-obsidian-controlled-query/scripts/query_session.py:854-906 | when the chosen blocks fit, the excerpt contains, for every term that occurs in some block, a whole block in which it occurs |
| DeliveryPacking.CompactContents | hermes-obsidian-controlled-query/scripts/query_session.py:970-1007 | the first cut and the packing loop, in place on the content fields |
| DeliveryPacking.RoundShrinks | hermes-obsidian-controlled-query/scripts/query_session.py:993-1007 | a round of the loop strictly shrinks the total content and touches nothing else |
| DeliveryPacking.DeliveryOutcome | hermes-obsidian-controlled-query/scripts/query_session.py:970-1007 | on exit the budget holds or every field is at most 400 characters; paths, ids and references are untouched; a field is marked as an excerpt exactly when its content changed |
| DeliveryPacking.SharesFit | hermes-obsidian-controlled-query/scripts/query_session.py:974-983 | the fields' shares never add up to more than what is available |
| DeliveryRounds.FirstCutExactly | hermes-obsidian-controlled-query/scripts/query_session.py:970-991 | a delivery over its budget is cut field by field to the larger of the minimum and its share of what the budget leaves beside the emptied delivery; a field is marked when that is not its own text; any other delivery stays as it is |
| DeliveryRounds.PackingRounds | hermes-obsidian-controlled-query/scripts/query_session.py:993-1007 | the loop is a sequence of rounds, each cutting the first of the longest fields to four fifths of its length or the minimum, and ends when the budget holds or no field is longer than the minimum |
| DeliveryRounds.ShareExactly | hermes-obsidian-controlled-query/scripts/query_session.py:979-983 | a share is the part of the room its weight calls for, rounded down |
| DeliveryRounds.SharesNotShort | hermes-obsidian-controlled-query/scripts/query_session.py:974-983 | the shares together fall short of what is available by less than one character a field |
| DeliveryPacking.FirstCutFits | hermes-obsidian-controlled-query/scripts/query_session.py:970-991 | when every share reaches the minimum, the first cut alone stays within what is available |
| Provenance.ReadableExactly | hermes-obsidian-controlled-ingest/scripts/validate_knowledge_build.py:21-30 | authored text is defined exactly on pages with no marker or with one start followed by one end |
| Provenance.AuthoredTextKeptExactly | hermes-obsidian-controlled-ingest/scripts/sync_knowledge_provenance.py:27-38 | inserting or replacing the block leaves the authored text as it was exactly when the block's own text holds no marker |
| Provenance.LastRewriteWins | hermes-obsidian-controlled-ingest/scripts/sync_knowledge_provenance.py:27-38 | a second rewrite replaces the first, and repeating one changes nothing |
| Provenance.BodyFreeExactly | hermes-obsidian-controlled-ingest/scripts/validate_knowledge_build.py:69-71 | the rendered block is free of markers exactly when its rows are |
| Provenance.ToolUsable | hermes-obsidian-controlled-ingest/scripts/validate_knowledge_build.py:17-18 | the two markers have what the results need: a first character that occurs nowhere else in them, and different text |
| ProvenancePages.Vault.Synchronize | hermes-obsidian-controlled-ingest/scripts/sync_knowledge_provenance.py:27-38 | all pages are read and checked before the first is written; a refusal changes nothing |
| ProvenancePages.EveryAuthoredTextKept | hermes-obsidian-controlled-ingest/scripts/sync_knowledge_provenance.py:27-38 | wherever a run is cut off, every page keeps its authored text |
| ProvenancePages.RerunConverges | hermes-obsidian-controlled-ingest/scripts/sync_knowledge_provenance.py:27-38 | rerunning after any interruption gives the pages of one whole run |

## Left out

- Pages, assets and quality of outline sections, and the Markdown and JSON around a ledger: they do not affect ownership or status.
- Timestamps, actors' names, `--replace` and forced ledger transitions.
- Governance.Validate: stops at the first class of issues that fails where the program goes on to report later classes; both report nothing on the same states.
- Worker bindings, access control, environment checks, and the legacy-revision evidence behind some recovery scopes: in `RecoveryGrants` whether they pass is part of what a call observes.
- GPU and memory thresholds, timeouts and polling in the supervisor: waiting is a step that may be taken any number of times.
- Fingerprints of graph nodes and the Vault checks made while the graph is built.
- Build, Reduce and release recovery, Board completion and unblocking.
- Fusion.FuseCandidates: leaves out scores, the final sort and the fields that only travel along (pages, assets, provider references); unreadable provider line numbers, which raise, are outside its inputs. A later rank of the same route replaces an earlier one, as in the program.
- Title keys: titles come with the key they are compared under.
- Excerpts.MatchedExcerpt: takes the blocks of the passage and the place of the last-resort window as given, because splitting at blank lines and the search for the window's place add no choice of their own; case folding is a parameter.
- Deduplication of assets against their section and removal of verification fields before packing.
- Rounding of durations and floating-point shares.
- Aliasing between Python dictionaries: entries of lists are values, replaced at their index.
- Failures of file writes other than a crash of the process or the machine.
