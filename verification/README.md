# SYNAPSE CHANNEL: verified models

This project models, in Dafny, the coordination core of SYNAPSE CHANNEL and the tools that
guard it, and proves what they promise.

- **The lease hub.** Agents claim tasks with a file scope, renew, update, checkpoint, hand
  over and release them; leases lapse by clock; protected reservations retain claims beyond
  their leases. `Lease` states each operation as a function on a hub value (claims, epoch
  counter, retained checkpoints, presence, custody). `SynapseState` is the registry as the
  hub keeps it, a class over dictionaries and the lease heap of `LeaseIndex`; each method is
  proved to compute the function. `LeaseInvariants`, `LeaseGuarantees`, `LeaseGenerations` and
  `LeaseLiveness` prove, for every run of any operations by any agents at any clock readings, what stays
  true, what fencing ensures and when the hub must say yes; `LeaseDeclarations` and
  `LeaseQuota` say what exclusion means for the files agents declared and the cap for one
  agent, `LeaseCheckpoints` what a task is resumed from. `LeaseVerdicts` says when each
  request is granted and what it writes, `LeaseOwnership` that nobody but the owner and the
  operator moves a running claim; `LeaseCounterexamples` holds runs that mark the limits.
  `Scoping`, `PathIdentity` and `IdentityMeaning` are the path and scope rules.
- **The journal.** `Journal` is the durable log and its replay; crash recovery refines the
  live hub, and `JournalTimeline` proves the exact condition, on the log and the clock
  readings, under which it does. `JournalRestart` proves that a restart cannot be told from
  the hub that never stopped. `FleetBenchmark` is the replay evidence of the coding-fleet
  benchmark.
- **The trace harness.** `CoordinationHarness` runs the repository's thirteen actions over
  the registry and proves that no trace, of any length, raises a violation. `HarnessTable`
  proves that the claims follow a table of two entries through every trace, and that the
  harness's depth of four performs every action on every table any trace can reach.
- **The hang watcher.** `HangWatcher` interleaves the watcher thread with the test hooks,
  one atomic move per lock section, clock reading and event operation.
- **The structure budget.** `StructureBudget` is the ratchet's two checks and updater;
  `StructureMeaning` says what each report means on the ledgers' entries, `StructureHistory`
  what the checks mean for whole commit histories.
- **The shard gates.** `SortedIds`, `ShardSchedule`, `ShardBalance`, `ShardGate` and
  `PortableGate`: two ways to split an inventory, how even the timed one is, and that
  acceptance means every test ran exactly once.
- **Graphs and indexes.** `Contention` and `ReleasedClaimIndex`: the exhaustive contention
  fold and the indexed one find the same pairs. `ImportReach`: imports of a syntax tree and
  reachability over a cyclic import graph.
- **Text and order.** `CommitStamp`, `CommitMeaning`, `MergeRisk`, `MarkerSplice`, `RunHistory` over `Strings`.

Where the code does not do what is said of it, the code is modelled as it is and the exact
condition is proved:

- `normalize_path` is not idempotent ("./ a" becomes " a", then "a"): it strips the whole
  path but not its segments, and comparing two stored paths normalises them once more. A
  normal form is settled exactly when its first kept segment has no leading and its last no
  trailing whitespace (`Scoping.SettledIff`).
- So a declared scope can miss a real file conflict, which
  src/synapse_channel/core/scoping.py:57-62 rules out: "./x /." and "x /y" are granted to
  two owners although "x /y" lies in both (`LeaseCounterexamples.DeclaredFileIsShared`).
  `Scoping.StoredOverlapIff` says exactly which overlaps are lost, and
  `LeaseDeclarations.DeclaredFilesApart` that without such a pair of paths no two owners of
  any run have declared a common file.
- And an owner that re-claims with the paths the hub stored can be refused for another
  owner's later claim (`LeaseCounterexamples.RenewalOfUnsettledPathIsRefused`), although
  renewal is documented as free (src/synapse_channel/core/state.py:265-272).
  `LeaseLiveness.RenewalIsExact` gives the condition for every stored scope;
  `LeaseLiveness.ReachIsNeverTaken` says when no other owner can cause it.
- The cap on the claims of one agent (src/synapse_channel/core/state.py:69-70, 975-979)
  holds per charged principal, not per agent: a handed-over claim stays charged to the
  giver, so handoffs can make one agent own any number of claims
  (`LeaseCounterexamples.RecipientHasNoCap`). `LeaseQuota.WithinCapIff` gives the exact
  condition over a run, `LeaseQuota.HandoffPastCapIff` and `LeaseQuota.AcquirePastCapIff`
  for one request. With a full cap the recipient cannot renew what it was handed
  (`LeaseCounterexamples.RenewalAfterHandoffIsRefused`).
- Replay at a clock reading earlier than some expiry that was never logged brings the
  lapsed lease back, beside the claim that took its place
  (`LeaseCounterexamples.EarlierClockResurrects`); `JournalTimeline.RecoveryIsExactIff` says
  exactly when it does not.
- A recorded move whose origin stays listed, or two moves of one origin, can double the
  recorded debt (`StructureHistory.MovesCanDouble`, `StructureHistory.TotalMayRiseIff`);
  maxima still never rise.
- Honest workers are refused when there are more workers than tests, or, for timed
  selections, more workers than test modules or malformed weights
  (`ShardGate.HonestAcceptedIff`).
- A message that opens with a stamp can hide a forbidden subject: it is valid, and is
  invalid once stamped (`CommitStamp.HiddenSubject`, `CommitStamp.StampedStaysValidIff`).
- Snapshot markers in the wrong order make every update grow the file
  (`MarkerSplice.UnorderedGrows`).

Clock readings are arbitrary reals and are not assumed to grow, except where a lemma says
so. Digests, Unicode tables (NFC, case folding, printable characters), seat and subject
patterns and recognised run titles are parameters.

`dafny verify dfyconfig.toml` checks the whole project.

## Model

| member | source | states |
|---|---|---|
| Strings.StripTrimmed | src/synapse_channel/core/scoping.py:73 | stripping leaves a string alone exactly when it has no outer whitespace, and shortens it otherwise |
| Strings.StripMeans | src/synapse_channel/core/scoping.py:73 | stripping takes away whitespace at both ends, all of it and nothing else |
| Strings.SpaceMeans | src/synapse_channel/core/scoping.py:73 | the characters that count as whitespace, one by one |
| Strings.JoinSplit | src/synapse_channel/core/scoping.py:77-83 | joining the parts of a split gives the text back |
| Strings.SplitJoin | src/synapse_channel/core/scoping.py:77-83 | splitting a join of separator-free parts gives the parts back |
| Scoping.NormalizePath | src/synapse_channel/core/scoping.py:54-83 | the segment loop computes the normal form: absolute and escaping paths fall to the root, empty and "." segments go |
| Scoping.OverlapIsAncestry | src/synapse_channel/core/scoping.py:86-108 | the string test for overlap holds exactly when one component list is a prefix of the other |
| Scoping.OverlapIsCommonFile | src/synapse_channel/core/scoping.py:86-108 | two paths overlap exactly when some file lies at or below both |
| Scoping.SettledIff | src/synapse_channel/core/scoping.py:54-83 | normalising a normal form changes nothing exactly when no segment is kept, or the first kept one has no leading and the last no trailing whitespace |
| Scoping.ComponentsOfNormalized | src/synapse_channel/core/scoping.py:54-83 | what a second normalisation makes of any path, on the segments the first one kept: only the outer whitespace goes, which can turn an end segment into nothing, "." or a traversal |
| Scoping.NormalizedTwiceDiffers | src/synapse_channel/core/scoping.py:54-83 | a concrete path whose second normalisation differs from its first |
| Scoping.NormalizePaths | src/synapse_channel/core/scoping.py:143-192 | the declaration loop stores distinct normal forms in order, or the whole worktree when a path is untrusted, names the root, or the cap is passed |
| Scoping.StoredSettledIffTrimmed | src/synapse_channel/core/scoping.py:143-192 | stored paths are stored again unchanged exactly when each is trimmed |
| Scoping.StoredCoversDeclared | src/synapse_channel/core/scoping.py:143-192 | a stored path lies at or above a declared one exactly when the scope was widened or the second pass leaves some declared path there |
| Scoping.StoredOverlapIff | src/synapse_channel/core/scoping.py:54-108 | two overlapping declared paths still overlap as stored and compared, exactly when neither loses it: the ancestor's last segment ends in whitespace, the other path goes on below it, and no second pass falls back to an enclosing directory |
| Scoping.ApartUnlessLost | src/synapse_channel/core/scoping.py:57-62 | two declarations whose stored scopes are apart name a common file exactly when some overlap between them was lost in storing |
| Scoping.ConflictIsCommonFile | src/synapse_channel/core/scoping.py:111-140 | plain scopes conflict exactly when they share a worktree and some file lies in both |
| PathIdentity.ConflictIsSymmetric | src/synapse_channel/core/path_identity.py:371-418 | contention between scopes with or without identity has no direction |
| PathIdentity.PlainConflict | src/synapse_channel/core/path_identity.py:386-387 | without identities the rule is the plain scope rule |
| PathIdentity.IdentifiedConflictIsCommonFile | src/synapse_channel/core/path_identity.py:371-418 | with an identity on either side, scopes contend exactly when their worktrees match and one names no path, or some file lies in a row of each under the shared case policy |
| PathIdentity.WholeWorktreeConflicts | src/synapse_channel/core/path_identity.py:384-385 | a scope without paths contends with every scope of a matching worktree, both ways |
| PathIdentity.FoldedLabelsAgree | src/synapse_channel/core/path_identity.py:61-66 | worktree labels equal with case are equal without it |
| IdentityMeaning.SpellingDoesNotMatter | src/synapse_channel/core/scoping.py:73 | backslashes and outer whitespace do not matter to a declared path |
| IdentityMeaning.PathMeans | src/synapse_channel/core/scoping.py:73-83 | a spelled path names the root when it is rooted or climbs, and else its segments in order without the empty and "." ones |
| IdentityMeaning.StoredMeans | src/synapse_channel/core/scoping.py:143-192 | a declaration is stored as the whole tree when a path is too long, unprintable or the root or there are more than the cap, and else as each normal form once |
| IdentityMeaning.SpellingsMean | src/synapse_channel/core/path_identity.py:50-66 | how paths and worktree labels are spelled for comparison, drive-rooted and network ones with either separator |
| IdentityMeaning.KeysMean | src/synapse_channel/core/path_identity.py:259-277 | object keys agree on device and inode, and on the generation too when both have one |
| IdentityMeaning.WorktreesMean | src/synapse_channel/core/path_identity.py:280-330 | when two scopes are in one worktree, with and without identities, and when their object ids can be compared |
| IdentityMeaning.RowsMean | src/synapse_channel/core/path_identity.py:347-418 | the rows a scope is compared by, and the case policy two scopes share |
| IdentityMeaning.ValidatesMeans | src/synapse_channel/core/path_identity.py:231-245 | an identity fits a display scope when it spells its worktree and each path in order |
| LeaseIndex.LeaseIndex.Track | src/synapse_channel/core/state_leases.py:30-34 | after indexing a lease every live lease is indexed under its current expiry and epoch, and stale entries are bounded by the live ones plus the margin |
| LeaseIndex.LeaseIndex.Rebuild | src/synapse_channel/core/state_leases.py:36-41 | exactly one entry per live claim |
| LeaseIndex.LeaseIndex.Earliest | src/synapse_channel/core/state_leases.py:45-46 | the entry the heap pops expires no later than any other |
| LeaseIndex.LeaseIndex.PopDue | src/synapse_channel/core/state_leases.py:43-47 | pops one earliest due entry, or reports that none is due |
| SynapseState.EndedEntryGone | src/synapse_channel/core/state.py:1137-1143 | ending a lease and dropping its entry keeps every other live lease indexed |
| SynapseState.SynapseState.EndLease | src/synapse_channel/core/state.py:1137-1143 | one popped entry ends the live lease it names or nothing, and what a sweep would then leave is unchanged |
| SynapseState.SynapseState.ExpireClaims | src/synapse_channel/core/state.py:1125-1143 | popping due entries, stale ones included, drops exactly the lapsed claims and keeps their checkpoints |
| SynapseState.SynapseState.PublishFrom | src/synapse_channel/core/state.py:172-209 | publishing a candidate with the same limits replaces the whole state at once, heap included; otherwise nothing changes |
| SynapseState.SynapseState.Heartbeat | src/synapse_channel/core/state.py:232-246 | records presence and sweeps |
| SynapseState.SynapseState.FindScopeConflict | src/synapse_channel/core/state_scopes.py:18-40 | returns a contending claim of another owner exactly when there is one |
| SynapseState.SynapseState.ClaimsOwnedBy | src/synapse_channel/core/state.py:636-642 | counts the live claims charged to a principal |
| SynapseState.SynapseState.ClaimQuotaAvailable | src/synapse_channel/core/state.py:386-396 | room in the cap, or an unchanged owner and principal |
| SynapseState.SynapseState.AcquireGuards | src/synapse_channel/core/state.py:332-355 | the refusal a claim meets, in the order the guards run |
| SynapseState.SynapseState.Acquire | src/synapse_channel/core/state.py:248-384 | the claim method computes the claim operation: new state and verdict |
| SynapseState.SynapseState.Renew | src/synapse_channel/core/state.py:398-448 | the fenced renewal keeps epoch, scope and lease length and moves the lease |
| SynapseState.SynapseState.UpdateTask | src/synapse_channel/core/state.py:691-765 | the owner's update under epoch, version and lifecycle guards |
| SynapseState.SynapseState.SaveCheckpoint | src/synapse_channel/core/state.py:767-814 | the owner's checkpoint under the epoch guard |
| SynapseState.SynapseState.Release | src/synapse_channel/core/state.py:816-864 | a release drops the claim and its retained checkpoint |
| SynapseState.SynapseState.ForceRelease | src/synapse_channel/core/state.py:866-906 | the operator's revocation: no owner check, no heartbeat, no sweep |
| SynapseState.SynapseState.Handoff | src/synapse_channel/core/state.py:908-1024 | the handoff method computes the handoff operation: new state and verdict |
| SynapseState.SynapseState.InstallAdmission | src/synapse_channel/core/state.py:450-504 | custody is opened only for current, non-overlapping witnesses within the budget |
| SynapseState.SynapseState.Settle | src/synapse_channel/core/state.py:572-612 | settling releases the custody and keeps the reservation's identity retained |
| SynapseState.SynapseState.Perform | src/synapse_channel/core/state.py:98-1143 | any one request changes the registry as its operation says |
| SynapseState.SynapseState.Serve | src/synapse_channel/core/state.py:98-1143 | a whole sequence of requests leaves the registry at the value of the run, so what is proved of runs holds of the registry |
| LeaseVerdicts.AcquireVerdict | src/synapse_channel/core/state.py:312-355 | a claim is granted exactly when it names a task, matches its identity, nothing retained or held by somebody else stands in its way, and its principal has room or pays for the task already |
| LeaseVerdicts.AcquireEffect | src/synapse_channel/core/state.py:357-378 | what a granted claim writes, field by field, and that every other claim is as swept |
| LeaseVerdicts.LeaseLength | src/synapse_channel/core/state.py:86-95 | a requested lease length is kept within thirty seconds and thirty days, and the configured one used without a request |
| LeaseVerdicts.LimitsMean | src/synapse_channel/core/state.py:127-141 | what a configuration may hold: a default length between thirty seconds and thirty days, and caps of at least one |
| LeaseVerdicts.ChargeGoesTo | src/synapse_channel/core/state.py:315 | the charge goes to the stripped principal, or to the agent when that leaves nothing |
| LeaseVerdicts.RenewVerdict | src/synapse_channel/core/state.py:427-443 | a fenced renewal is granted exactly to the running owner, under its epoch or anchor, unretained and for the stored paths |
| LeaseVerdicts.RenewEffect | src/synapse_channel/core/state.py:444-447 | a granted renewal starts the lease now with the length it had, and writes nothing else |
| LeaseVerdicts.UpdateVerdict | src/synapse_channel/core/state.py:741-757 | an update is granted exactly to the running owner whose epoch and version expectations hold and whose status may follow |
| LeaseVerdicts.UpdateEffect | src/synapse_channel/core/state.py:757-765 | a granted update writes the given status, note and reference, counts the version up and leaves the rest |
| LeaseVerdicts.LifecycleMeans | src/synapse_channel/core/lifecycle.py:50-80 | a finished claim stays as it is, nothing returns to claimed, and only work waits for input |
| LeaseVerdicts.CheckpointVerdict | src/synapse_channel/core/state.py:799-812 | a checkpoint is granted exactly to the running, unretained owner at its epoch |
| LeaseVerdicts.CheckpointEffect | src/synapse_channel/core/state.py:811-814 | a granted checkpoint writes itself and the next version, and nothing else |
| LeaseVerdicts.ReleaseVerdict | src/synapse_channel/core/state.py:845-861 | a release is granted exactly to the running, unretained owner at its epoch |
| LeaseVerdicts.ReleaseEffect | src/synapse_channel/core/state.py:861-864 | a granted release leaves neither claim nor checkpoint, and every other claim as swept |
| LeaseVerdicts.ForceReleaseMeans | src/synapse_channel/core/state.py:866-906 | the revocation drops exactly a present, unretained claim, lapsed or not, and touches nothing else |
| LeaseVerdicts.HandoffVerdict | src/synapse_channel/core/state.py:950-1004 | a handoff is granted exactly to the running owner for another agent with room, nothing retained or taken in the way |
| LeaseVerdicts.HandoffEffect | src/synapse_channel/core/state.py:1005-1024 | what a granted handoff writes, field by field, and that it leaves the rest |
| LeaseVerdicts.PresenceMeans | src/synapse_channel/core/state.py:232-246 | a heartbeat records presence, a snapshot nothing, and both let go of lapsed leases only |
| LeaseVerdicts.CustodyVerdict | src/synapse_channel/core/state.py:450-504 | custody is opened exactly for copies of current, unretained claims under a new identity within the budget, and settled exactly when open |
| LeaseOwnership.LiveClaimIsNotTaken | src/synapse_channel/core/state.py:335-340 | a claim on a task another agent holds, or on any held one when a fresh lease is asked for, is refused and leaves it alone |
| LeaseOwnership.NonOwnerIsRefused | src/synapse_channel/core/state.py:856 | a renewal, update, checkpoint, release or handoff by anyone but the running owner is refused and leaves the claim alone |
| LeaseOwnership.OnlyAuthorisedStepsTouch | src/synapse_channel/core/state.py:98-1143 | a running claim changes or goes only by its owner's granted request about it or the operator's revocation |
| LeaseOwnership.UntouchedWithoutOwner | src/synapse_channel/core/state.py:98-1143 | the same over every run whose readings stay before its expiry: without such a step the claim is exactly as it was |
| LeaseOwnership.OwnerChangesOnlyByOwner | src/synapse_channel/core/state.py:265-272 | over every run a task stays its owner's until its lease lapses unrenewed, the owner is granted a release or handoff, or the operator revokes it |
| LeaseInvariants.StepKeepsInvariant | tools/exhaustive_coordination_model.py:105-122 | every operation, granted or refused, at any clock reading, keeps one owner per task, exclusion, issued and distinct epochs, bounded leases, the cap and custody |
| LeaseInvariants.EveryRunIsSafe | tools/exhaustive_coordination_model.py:105-122 | in every run from the empty hub different owners never contend, no principal is charged past the cap, and nobody but its owner holds files a reservation retains |
| LeaseInvariants.OwnersShareNoFile | src/synapse_channel/core/scoping.py:111-140 | in every run claims of different owners in one worktree have no file in common, their stored paths read as the comparison reads them |
| LeaseInvariants.ClaimOrigin | src/synapse_channel/core/state.py:357-378 | only a granted claim request sets who pays for a claim and which files it takes; besides it, only a granted handoff sets its owner |
| LeaseDeclarations.DeclaredFilesApart | src/synapse_channel/core/scoping.py:57-62 | in every run two owners' plain claims in one worktree were declared with a common file exactly when storing lost the overlap of two of their declared paths |
| LeaseDeclarations.OwnersShareNoIdentifiedFile | src/synapse_channel/core/path_identity.py:371-418 | in every run no file lies in a row of each of two owners' claims on the same worktree when either carries an identity |
| LeaseQuota.HandoffPastCapIff | src/synapse_channel/core/state.py:975-979 | a granted handoff leaves its recipient past the cap exactly when the recipient already owned the cap |
| LeaseQuota.AcquirePastCapIff | src/synapse_channel/core/state.py:386-396 | a granted claim leaves its agent past the cap exactly when it was past it, or owned exactly the cap and did not hold the task |
| LeaseQuota.WithinCapIff | src/synapse_channel/core/state.py:69-70 | an agent stays within the cap throughout a run exactly when no step grants it a task it did not hold while it owned the cap |
| LeaseQuota.AgentWithinCap | src/synapse_channel/core/state.py:69-70 | told from the requests alone: an agent that claims under one principal and is handed nothing owns at most the cap at every point of every run |
| LeaseInvariants.HandoffKeeps | src/synapse_channel/core/state.py:983-1001 | a handoff that moves a scope keeps exclusion against everyone but the recipient |
| LeaseInvariants.AcquireKeeps | src/synapse_channel/core/state.py:342-348 | a widening re-claim is checked again, so exclusion is kept |
| LeaseInvariants.StoreKeepsQuota | src/synapse_channel/core/state.py:386-396 | storing a claim under the cap guard keeps every principal within the cap |
| LeaseInvariants.CustodyOpsKeep | src/synapse_channel/core/state.py:479-504 | opening and settling custody keep reservations apart and their witnesses uncontradicted |
| LeaseGuarantees.RefusalChangesNothing | tools/exhaustive_coordination_model.py:220-259 | a refused operation changes no authority beyond dropping leases that had lapsed |
| LeaseGuarantees.SweepIsIdempotent | src/synapse_channel/core/state.py:1125-1143 | sweeping twice at one time is sweeping once |
| LeaseGuarantees.StepEpoch | src/synapse_channel/core/state.py:167-170 | a granted claim or handoff issues the next epoch; nothing else issues one |
| LeaseGuarantees.EpochsAreConsecutive | src/synapse_channel/core/state_models.py:117-119 | over a whole run the issued epochs are consecutive: strictly increasing, none skipped or reused |
| LeaseGuarantees.SupersededStaysDead | src/synapse_channel/core/state_models.py:117-119 | a superseded epoch matches no live claim at any later point of any run, nor any ownership anchor if it was none |
| LeaseGuarantees.GrantSupersedes | src/synapse_channel/core/state.py:357-378 | a granted re-claim, takeover, handoff or release leaves the previous epoch dead |
| LeaseGuarantees.StaleHolderIsFencedOut | tools/exhaustive_coordination_model.py:220-236 | once superseded, a holder's update, checkpoint, release and handoff are refused ever after, and change no authority |
| LeaseGuarantees.StaleRenewalRefused | src/synapse_channel/core/state.py:429-439 | a fenced renewal naming neither a live epoch nor its anchor is lost, however the run went on |
| LeaseGuarantees.StaleVersionIsRefused | tools/exhaustive_coordination_model.py:243-259 | an update naming another version is refused and leaves authority as swept |
| LeaseGuarantees.HandoffIsAtomic | src/synapse_channel/core/state.py:908-1024 | a granted handoff keeps scope, status, context and checkpoint, gives a new owner, fresh epoch, version zero and a full lease, moves no other claim, and the recipient contends with nobody |
| LeaseGenerations.VersionTellsContents | src/synapse_channel/core/state_models.py:117-122 | over any run, a task seen again under the same epoch has the same owner and scope, a version no lower, equal contents if the version is equal, and keeps a terminal status |
| LeaseGenerations.AnchorMarksOwnership | src/synapse_channel/core/state_models.py:127-130 | over any run, a claim's ownership anchor is either on no claim or still on that task with the same owner and scope |
| LeaseGenerations.RenewalMeansUninterrupted | src/synapse_channel/core/state.py:398-448 | a renewal signed with an anchor is granted only if the agent that held the claim then held it with that scope and anchor at every point of the run since, and its lease is unlapsed |
| LeaseLiveness.RenewalIsExact | src/synapse_channel/core/state.py:325-355 | for every stored scope: re-claiming what one holds is granted exactly when the scope normalised once more matches its identity, no reservation retains it, no other owner contends with it, and the principal is the one charged or has room |
| LeaseLiveness.ReachIsNeverTaken | src/synapse_channel/core/state.py:265-272 | while a second normalisation leaves what the stored paths are read as, no other owner can take the scope: a renewal is refused only for identity, custody or the cap |
| LeaseLiveness.SamePrincipalRenewalIsFree | src/synapse_channel/core/state.py:386-396 | the same principal's renewal is granted whatever the cap, with a fresh epoch and the checkpoint; scope and ownership anchor are kept exactly when the stored paths are settled |
| LeaseLiveness.AloneIsNeverScopeRefused | src/synapse_channel/core/scoping.py:136-137 | a claim where no other owner works is never refused for its scope |
| LeaseCheckpoints.TokenIsConserved | src/synapse_channel/core/state.py:1125-1143 | over every run a task is resumed from what its last granted checkpoint saved, or nothing if it was released since; lapses, takeovers, handoffs and edits lose nothing |
| LeaseCheckpoints.TakeoverInheritsCheckpoint | src/synapse_channel/core/state.py:380-384 | whoever is granted a task at the end of any run, continuing or taking over, inherits the last checkpoint saved |
| LeaseLiveness.EveryLeaseLapses | tools/exhaustive_coordination_model.py:260-263 | no claim survives a sweep the maximum lease after the last clock reading |
| LeaseCounterexamples.RenewalAfterHandoffIsRefused | src/synapse_channel/core/state.py:1007-1011 | with a cap of one, a run after which the recipient owns two claims and cannot renew the handed-over one |
| LeaseCounterexamples.RecipientHasNoCap | src/synapse_channel/core/state.py:975-979 | whatever the cap and for every n, a run of handoffs after which one agent owns n claims |
| LeaseCounterexamples.RenewalOfUnsettledPathIsRefused | src/synapse_channel/core/state.py:325-348 | a run after which an owner's renewal with its own stored paths is refused for scope |
| LeaseCounterexamples.DeclaredFileIsShared | src/synapse_channel/core/scoping.py:57-62 | a run in which two owners are granted claims whose declarations share a file |
| LeaseCounterexamples.EarlierClockResurrects | src/synapse_channel/core/journal.py:1034-1042 | a run whose log, replayed before an unlogged expiry, gives one worktree to two owners |
| Journal.Replay | src/synapse_channel/core/journal.py:933-1053 | the replay loop fills a fresh registry event by event, indexes it once and sweeps; it raises exactly when the fold is malformed or unsupported |
| Journal.StepMirrors | src/synapse_channel/core/journal_appliers.py:88-107 | after each request the log's fold holds every live claim, and besides them only lapsed ones whose checkpoints the hub retains |
| Journal.RecoveryIsExact | src/synapse_channel/core/journal.py:9-22 | replayed no earlier than any reading of the run, the log gives back exactly the live claims, every field as it was, the payer spelled out and branch defaults filled in, with resume tokens and epoch counter of the swept hub |
| JournalTimeline.RecoveryIsExactIff | src/synapse_channel/core/journal.py:1034-1042 | replayed at any moment, the claims come back, field by field, exactly when no lease whose last logged snapshot runs past it was followed by a sweep that read its expiry; tokens and the epoch counter come back then too |
| JournalTimeline.RunFollows | src/synapse_channel/core/journal_appliers.py:88-107 | over any run a task is live exactly while its last logged snapshot stands unswept, and the fold holds exactly the last snapshots |
| Journal.ReplayAcceptsIff | src/synapse_channel/core/journal_appliers.py:219-230 | a hub's log is refused exactly when protected custody was granted in it |
| Journal.AcceptedLogs | src/synapse_channel/core/journal.py:873-902 | replay of any log is refused exactly when an event is protected or a snapshot does not hold together |
| Journal.FoldMeans | src/synapse_channel/core/journal_appliers.py:88-107 | any accepted log leaves each task as its last event says, each agent as last seen at its last snapshot, and the largest epoch |
| Journal.RecoveredIsSafe | src/synapse_channel/core/journal.py:1034-1042 | the recovered hub keeps every invariant of the live one |
| Journal.FencingSurvivesRestart | src/synapse_channel/core/journal.py:1037 | an epoch superseded before the crash is refused at every point of every run of the recovered hub |
| JournalRestart.StepAlike | src/synapse_channel/core/journal.py:9-22 | hubs alike but for how payers are spelled and branch contexts give one request the same verdict, reason included, and stay alike |
| JournalRestart.RestartIsUnobservable | src/synapse_channel/core/journal.py:9-22 | a hub that crashes and replays its log answers every further sequence of requests as the one that never stopped would |
| FleetBenchmark.ConflictingClaimPairs | benchmarks/coding_fleet_benchmark.py:197-210 | the nested loops count each sharing pair once |
| FleetBenchmark.SharingMeans | benchmarks/coding_fleet_benchmark.py:197-210 | each pair of positions counts once when its claims share a worktree and a path or a whole tree |
| FleetBenchmark.CountedPairsHaveOneOwner | benchmarks/coding_fleet_benchmark.py:173-210 | among claims recovered from any run, a counted pair has one owner |
| FleetBenchmark.ReleasedLogRecoversNothing | benchmarks/coding_fleet_benchmark.py:173-194 | claims logged and then all released recover to nothing |
| CoordinationHarness.AssertInvariants | tools/exhaustive_coordination_model.py:105-122 | the check sweeps and passes exactly when every claim and every pair satisfies its condition |
| CoordinationHarness.AssertPairs | tools/exhaustive_coordination_model.py:112-122 | the pair loops pass exactly when no two claims of different owners conflict |
| CoordinationHarness.TakeFingerprint | tools/exhaustive_coordination_model.py:125-140 | the fingerprint is of the swept state |
| CoordinationHarness.ModelledPassesChecks | tools/exhaustive_coordination_model.py:105-122 | the hub invariant implies every condition the harness asserts |
| CoordinationHarness.RenewalHolds | tools/exhaustive_coordination_model.py:188-200 | the renewal action is always granted |
| CoordinationHarness.SideClaimHolds | tools/exhaustive_coordination_model.py:178-187 | the side-worktree claim is always granted |
| CoordinationHarness.StaleActsAreRefused | tools/exhaustive_coordination_model.py:220-259 | the stale release and update are refused with an equal fingerprint |
| CoordinationHarness.ApplyAction | tools/exhaustive_coordination_model.py:167-267 | each action leaves the state its request gives and raises no violation |
| CoordinationHarness.ReplayTrace | tools/exhaustive_coordination_model.py:270-277 | a trace of any length is replayed without a violation and leaves the registry at the trace's value |
| HarnessTable.MeetingScopes | tools/exhaustive_coordination_model.py:60-67 | of the harness's four path lists, exactly the whole worktree with any, equal ones, and src with its child contend |
| HarnessTable.StepFollows | tools/exhaustive_coordination_model.py:167-267 | each of the thirteen actions changes the claims exactly as a two-entry table of holders and paths says, so it is granted exactly when the table lets it |
| HarnessTable.TraceFollows | tools/exhaustive_coordination_model.py:270-277 | over a trace of any length the claims are the table's entries and the clock has moved past the longest lease once for each expiry |
| HarnessTable.ReachedIff | tools/exhaustive_coordination_model.py:280-305 | the tables traces reach are exactly those that fit the stated form, and three actions reach any of them |
| HarnessTable.DepthFourCovers | tools/exhaustive_coordination_model.py:280-305 | whatever claims a trace of any length leaves, one of at most three actions leaves too, so depth four performs every action on every such table |
| HangWatcher.MoveKeepsInv | tools/pytest_hang_identity.py:149-284 | every atomic move of either thread keeps the watcher invariant |
| HangWatcher.NeverStranded | tools/pytest_hang_identity.py:172-239 | in every interleaving a blocked watcher has a wake set or coming, or no stop is requested and its timeout is the live arm's, late only by the delay between reading the clock and blocking |
| HangWatcher.DecisionIsDue | tools/pytest_hang_identity.py:149-169 | a report is decided only for the current, live arm at or past its deadline, before any stop, and marks it reported |
| HangWatcher.ReportedAtMostOnce | tools/pytest_hang_identity.py:149-169 | in every run no arm is reported twice and what is written is what was decided, in order |
| HangWatcher.StopSilences | tools/pytest_hang_identity.py:156-158 | after a stop request nothing more is decided |
| HangWatcher.StopEndsReporting | tools/pytest_hang_identity.py:235-239 | in every run a stop request is the end of reporting |
| HangWatcher.FinishedStaysSilent | tools/pytest_hang_identity.py:275-284 | a test finished or replaced before its report is never reported |
| HangWatcher.FinishSilences | tools/pytest_hang_identity.py:275-284 | in every run a test finished before its report was decided is never reported, and a finish of any other test changes nothing |
| HangWatcher.ReplacedIsSilent | tools/pytest_hang_identity.py:203-273 | in every run an arm replaced before its report was decided is never reported |
| HangWatcher.ReportedInTime | tools/pytest_hang_identity.py:203-273 | in every run an accepted arming makes a new live arm, reported only under its own name and at no reading before half a second past its limit; a refused one changes nothing |
| HangWatcher.HooksTakeTurns | tools/pytest_hang_identity.py:235-284 | until a hook's wake has landed no other begins, and a wake without a hook does nothing |
| HangWatcher.EveryHangIsReported | tools/pytest_hang_identity.py:186-200 | however clock ticks and watcher steps interleave once no hook follows, the live arm is reported within the steps its location leaves outside parking, nineteen at most |
| HangWatcher.HangEnds | tools/pytest_hang_identity.py:186-200 | a hang from start to end: after those steps the arm is reported or the watcher waits for it, and once the clock has reached the time it waits for four more steps report it |
| HangWatcher.ParkingEnds | tools/pytest_hang_identity.py:186-200 | a watcher parked for a live arm is parked exactly until the clock reaches the time its wait was given |
| HangWatcher.StopIsHonoured | tools/pytest_hang_identity.py:235-239 | once a stop's wake has landed, seven watcher steps, at any clock readings between them, halt it |
| HangWatcher.StopHalts | tools/pytest_hang_identity.py:235-239 | in every run a stop request and its wake halt the watcher within seven of its steps |
| HangWatcher.ArmedIsPending | tools/pytest_hang_identity.py:203-273 | in every run without a stop an accepted arming and its wake leave the arm pending |
| StructureBudget.CheckTree | tools/check_structure_budget.py:263-321 | lists exactly the violations of the tree, and none exactly when the ledger describes it |
| StructureBudget.SilentIffHolds | tools/check_structure_budget.py:263-321 | no violation exactly when every unit without an exception is listed iff over its threshold, with its exact figure, and every exception is needed, in date and kept |
| StructureBudget.CheckMeasure | tools/check_structure_budget.py:283-292 | one measure's loop lists exactly its units' violations |
| StructureBudget.CheckExceptions | tools/check_structure_budget.py:293-321 | lists exactly the unused, expired and exceeded exceptions and allowances |
| StructureBudget.CheckConfiguration | tools/check_structure_budget.py:324-340 | lists exactly removed roots and unexcepted growth of thresholds and allowed names |
| StructureBudget.CheckBaseline | tools/check_structure_budget.py:343-383 | lists exactly the violations against the predecessor, and none exactly when the ledger succeeds it |
| StructureBudget.QuietIffSucceeds | tools/check_structure_budget.py:343-383 | no violation exactly when every entry answers to a baseline entry no smaller, every move connects, and the configuration is kept |
| StructureBudget.UpdateLeavesOnlyExceptions | tools/check_structure_budget.py:437-447 | after an update only violations of exceptions remain, whatever the old ceilings |
| StructureBudget.UpdateSettles | tools/check_structure_budget.py:437-447 | updating twice is updating once, and without exceptions the result holds of its tree |
| StructureMeaning.SucceedsMeans | tools/check_structure_budget.py:324-383 | a ledger is accepted exactly when no unit listed in both rose, whatever the moves; other units were moved last from an entry no smaller; moves connect entries; no root went; thresholds and names grew only by exception |
| StructureMeaning.BaselineReportMeans | tools/check_structure_budget.py:324-383 | each report against the baseline, by its code, told on the entries and moves |
| StructureMeaning.TreeReportMeans | tools/check_structure_budget.py:238-321 | each report on a tree, by its code, told on the figures, entries and first exceptions |
| StructureMeaning.UpdatedMeans | tools/check_structure_budget.py:437-447 | the updater writes exactly the units measured above their threshold that no exception covers, with their figures |
| StructureHistory.BoundedByTheFirst | tools/check_structure_budget.py:343-383 | through any accepted history and any moves every figure is at most a figure of the first ledger |
| StructureHistory.TotalNeverRises | tools/check_structure_budget.py:361-372 | when no two listed units answer to one baseline entry the total does not rise |
| StructureHistory.TotalMayRiseIff | tools/check_structure_budget.py:361-372 | accepted figures for these entries can exceed the baseline total exactly when the carried figures do |
| StructureHistory.MovesCanDouble | tools/check_structure_budget.py:361-383 | a concrete accepted move that doubles the recorded debt |
| StructureHistory.UnmovedHistoryFalls | tools/check_structure_budget.py:343-372 | without moves the listed units shrink, figures fall pointwise and the total never rises |
| StructureHistory.MeasuredFiguresNeverRise | tools/check_structure_budget.py:238-372 | over commits passing both checks without moves or exceptions, a measured figure above its threshold never rises and nothing new exceeds one |
| SortedIds.SortedIs | tools/ci_shard_artifacts.py:175-178 | a list sorts to a given ascending list exactly when the elements agree, counted |
| SortedIds.SortedSetIffStrict | tools/ci_shard_artifacts.py:46-55 | a list equals its own sorted set exactly when it is strictly ascending |
| ShardSchedule.StridedHas | tools/ci_shard_artifacts.py:75 | a worker's stride holds exactly the tests at positions with its residue |
| ShardSchedule.OneWorkerEach | tools/pytest_shard_schedule.py:113-158 | a test is scheduled on exactly one worker, the one its module is assigned to |
| ShardSchedule.ModulesStayTogether | tools/pytest_shard_schedule.py:130 | tests of one module share a worker |
| ShardSchedule.AllBusyIff | tools/pytest_shard_schedule.py:151-157 | longest-first scheduling leaves no worker empty exactly when there are modules for all |
| ShardSchedule.PartitionTestModules | tools/pytest_shard_schedule.py:113-158 | malformed counts, inventories and durations are refused, and else the heap loop gives each worker its scheduled share |
| ShardBalance.ModuleMeans | tools/pytest_shard_schedule.py:147 | a test belongs to the part of its id before the first "::" |
| ShardBalance.CostMeans | tools/pytest_shard_schedule.py:148-150 | a module weighs its recorded duration, else its number of tests, and never less than a nanosecond |
| ShardBalance.OrderMeans | tools/pytest_shard_schedule.py:154 | modules are taken longest first, by name among equals, each module of the inventory and no other |
| ShardBalance.AssignmentMeans | tools/pytest_shard_schedule.py:151-157 | each module goes to the worker with the least load so far, the lowest index among equals |
| ShardBalance.LoadsAreEven | tools/pytest_shard_schedule.py:113-158 | without its last module no worker has more load than any other |
| ShardBalance.PartitionableMeans | tools/pytest_shard_schedule.py:21-56 | what scheduling accepts: one to 128 workers, distinct non-empty ids, relative module paths and at most a day each |
| ShardGate.Profile | tools/ci_shard_artifacts.py:161-179 | accepts exactly a profile with every index once, one inventory and a union that sorts to it |
| ShardGate.Verify | tools/ci_shard_artifacts.py:319-344 | accepts exactly the complete matrix of completed, valid profiles |
| ShardGate.AcceptedMeansEachTestOnce | tools/ci_shard_artifacts.py:90-103 | after acceptance each test of the inventory was completed by exactly one shard, once, and nothing else was |
| ShardGate.AcceptsMeans | tools/ci_shard_artifacts.py:90-103 | the gate accepts exactly a full matrix of receipts that each report schema one, success, exit status zero and their own exact, completed, non-empty share |
| ShardGate.OneBadReceiptRefuses | tools/ci_shard_artifacts.py:94-103 | a matrix with any receipt that failed, exited otherwise, has another schema or an empty or incomplete share is refused |
| ShardGate.StridedPartitions | tools/ci_shard_artifacts.py:71-87 | the strided selections are ascending, disjoint and cover the inventory |
| ShardGate.ScheduledPartitions | tools/ci_shard_artifacts.py:76-87 | so are the scheduled ones |
| ShardGate.HonestProfileHolds | tools/ci_shard_artifacts.py:161-179 | honest receipts, in any order, always pass the union check |
| ShardGate.HonestAcceptedIff | tools/ci_shard_artifacts.py:76-103 | a complete set of honest shards is accepted exactly when tests, or for timed ones modules, go round and any weights are well formed |
| PortableGate.Union | tools/ci_portable_shards.py:149-160 | accepts exactly every index once over one inventory whose selections sort to it |
| PortableGate.VerifyPortable | tools/ci_portable_shards.py:200-223 | accepts exactly a complete set of completed portable receipts |
| PortableGate.PortableMeansEachTestOnce | tools/ci_portable_shards.py:67-95 | after acceptance each test was completed by exactly one shard and called or skipped, and nothing else was |
| PortableGate.PortableAcceptsMeans | tools/ci_portable_shards.py:67-97 | the portable gate accepts exactly one such receipt per index, of the platform and weights, accounting for every selected test and its modules' valid durations |
| Contention.ExhaustiveContention | benchmarks/causality_graph_benchmark.py:104-143 | the nested loops compute the contention fold |
| Contention.PairMeans | benchmarks/causality_graph_benchmark.py:104-143 | a pair is found exactly when its claim is fresh and its release is the latest earlier one that freed a contending claim of another owner |
| Contention.ContentionMeans | src/synapse_channel/core/causality.py:550-583 | the pairs told on the log: a claim on a task nobody holds, with the last release before it that ended a contending claim of another owner |
| ReleasedClaimIndex.ContendersMeet | src/synapse_channel/core/causality_release_index.py:10-25 | claims that contend meet under a key of the index |
| ReleasedClaimIndex.ReleasedClaimIndex.Add | src/synapse_channel/core/causality_release_index.py:63-86 | every bucket holds the entries filed under its key, oldest first |
| ReleasedClaimIndex.ReleasedClaimIndex.LatestConflicting | src/synapse_channel/core/causality_release_index.py:88-127 | the newest-first merge returns the latest earlier contending release, or none when there is none |
| ReleasedClaimIndex.IndexedContention | src/synapse_channel/core/causality.py:550-583 | on a log in sequence order the indexed fold finds exactly the pairs of the exhaustive one |
| ImportReach.ImportedModules | tools/guarantee_register.py:205-240 | the tree worklist finds exactly what the running part of the tree names |
| ImportReach.ImportsMean | tools/guarantee_register.py:223-240 | what a tree names, node by node: under a type-checking test only the else branch counts |
| ImportReach.FromImportsMean | tools/guarantee_register.py:233-238 | a from-import names the module it reads from and each name below it |
| ImportReach.RelativeStem | tools/guarantee_register.py:233-236 | one dot is the package, each further dot one package up, and the spelled module below that |
| ImportReach.BeyondTheTop | tools/guarantee_register.py:234-235 | with more dots than packages the slice counts from the end and packages come back |
| ImportReach.Reaches | tools/guarantee_register.py:243-277 | on any finite, possibly cyclic graph the worklist ends, and finds a target exactly when an import chain of expanded modules leads to one |
| CommitStamp.StampingIsExact | tools/check_commit_trailers.py:240-248 | a valid message gets exactly one stamp, directly above its seat line, keeps every other line, and stamping again gives what stamping the original would |
| CommitStamp.StampedStaysValidIff | tools/check_commit_trailers.py:158-197 | a valid message stays valid under its stamp exactly when the subject it will then have is allowed |
| CommitStamp.SubjectOfStamped | tools/check_commit_trailers.py:143-145 | the stamped message's subject is its first non-blank unstamped line, or the stamp above a leading seat line |
| CommitStamp.AuditAcceptsItsOwn | tools/check_commit_trailers.py:315-333 | the audit accepts a stamped message for the configuration it was stamped for and for no other |
| CommitStamp.HookOutputPasses | tools/check_commit_trailers.py:260-288 | what the hook writes for a message that opens with no stamp passes hook and audit |
| CommitStamp.HiddenSubject | tools/check_commit_trailers.py:240-248 | a valid message that stamping makes invalid |
| CommitStamp.StampingKeepsTheBody | tools/check_commit_trailers.py:206-232 | the body rules see the same lines before and after stamping |
| CommitStamp.StampTextIsStamped | tools/check_commit_trailers.py:240-248 | the text written reads back as the stamped lines |
| CommitMeaning.LinesMean | tools/check_commit_trailers.py:87-94 | what a seat, stamp and blank line and a digest character are, told on characters |
| CommitMeaning.ReportsMean | tools/check_commit_trailers.py:158-197 | each report of the hook, by its kind, told on the lines |
| CommitMeaning.ValidMeans | tools/check_commit_trailers.py:158-197 | the hook accepts exactly one allowed seat line directly above one authorship line, at most one well-formed stamp and an allowed subject |
| CommitMeaning.SubjectMeans | tools/check_commit_trailers.py:143-145 | the subject is the first line that is not blank, stripped |
| CommitMeaning.StampedMeans | tools/check_commit_trailers.py:240-248 | stamping drops every stamp line, keeps the others in order and puts one above the first seat line |
| CommitMeaning.AuditMeans | tools/check_commit_trailers.py:315-333 | the audit asks for a stamp only of stamping configurations and goes by the first full one |
| CommitMeaning.SplitLinesMean | tools/check_commit_trailers.py:160 | where a text is split into lines, a carriage return with a line feed being one break |
| MergeRisk.OverlapIsPrefix | tools/import_merge_risk.py:273-281 | the string test holds exactly when one component list, trailing slashes aside, is a prefix of the other |
| MergeRisk.OverlapIsCommonPath | tools/import_merge_risk.py:273-281 | paths overlap exactly when some path lies at or below both |
| MergeRisk.FindMergeRisks | tools/import_merge_risk.py:336-420 | the loops hold, under its key, the record of every case and no other |
| MergeRisk.OverlapRecordsAreExact | tools/import_merge_risk.py:362-377 | there is a direct-overlap record for exactly the overlapping changed/claimed pairs |
| MergeRisk.RecordsMean | tools/import_merge_risk.py:361-413 | each record of a pair, told on the tables: overlap, import either way, or shared mapped tests, with the owners of both paths |
| MergeRisk.FoundExactly | tools/import_merge_risk.py:355-420 | the result holds a record exactly when its pair was given and gives rise to it |
| MarkerSplice.SpliceIsFixpointIff | tools/capability_manifest.py:301-316 | with ordered markers a splice changes nothing outside the region; the region is then the block and splicing again changes nothing exactly when the block holds no earlier end marker |
| MarkerSplice.UpToDateIff | tools/capability_manifest.py:351-364 | the snapshot matches exactly when injecting it would change nothing |
| MarkerSplice.UnorderedGrows | tools/capability_manifest.py:310-316 | with markers in the wrong order every splice adds at least the block |
| MarkerSplice.PageSpliceIff | tools/guarantee_register.py:562-573 | the regenerated page is accepted again, and is its own regeneration, exactly when no marker stands inside the table |
| RunHistory.ClassifyWorkflowRuns | tools/audit_github_actions_history.py:233-297 | the loop classifies every kept run in chronological order |
| RunHistory.ClassificationIgnoresOrder | tools/audit_github_actions_history.py:254-260 | with distinct run numbers the classification does not depend on input order |
| RunHistory.AuditFailsIff | tools/audit_github_actions_history.py:217-297 | the audit fails exactly when a completed, kept run with a bad conclusion has no identity or no later completed success of its key |
| RunHistory.MoreRunsOnlyRepair | tools/audit_github_actions_history.py:217-297 | with more runs a bucket stays or goes from unresolved to resolved |
| RunHistory.RepairedStaysRepaired | tools/audit_github_actions_history.py:233-297 | a run that is not unresolved keeps its place in every longer history |
| RunHistory.RepairsMeans | tools/audit_github_actions_history.py:217-230 | a run is repaired only by a later completed success of the same workflow number, branch, event and surface |
| RunHistory.BucketMeans | tools/audit_github_actions_history.py:262-295 | each bucket, told on the run, its identity and what repairs it |
| RunHistory.ClassificationMeans | tools/audit_github_actions_history.py:254-297 | the classification lists every run not left out, as often as given, oldest first, in the bucket it has among them |

## Left out

- The heap inside `heapq` and the heads inside `heapq.merge`: taken at their interfaces (an earliest entry; greatest first).
- Transfer of custody to a recovery child, the reservation lifecycle between admission and settlement, and enrolment records: custody is opened and settled, and its witnesses are kept apart.
- LeaseQuota.AgentWithinCap: one way only, a rule an agent can keep to from its own requests; `LeaseQuota.WithinCapIff` is exact.
- Journal.Replay: protected custody is replayed through enrolled restorers in the source; replay is modelled without them, where it raises.
- SynapseState.SynapseState.PublishFrom: the offer limit in the configuration check, and the resource and enrolment registries, are not modelled.
- SynapseState.SynapseState.Settle: the compare-and-swap guards on predecessor, admission and transition sequence are not modelled.
- MergeRisk.FindMergeRisks: the rows are a map by their key; the sorted order in which they are returned is not modelled.
- In-place mutation of a claim object that other code also refers to: claims are values, the dictionaries holding them are updated in place.
- Which contending claim a refusal names when several contend, and the texts of refusals.
- Waits, deadlock refusal, resource offers, idempotency, relay, chat, ledger and the SQLite store: not part of the lease protocol.
- Floating-point rounding of clocks and lease lengths, and NaN or infinite readings: times are reals.
- Unicode tables: NFC, case folding and printable characters are parameters.
- CoordinationHarness.ReplayTrace: the enumeration of traces and its counters add nothing once every trace holds.
- HangWatcher.EveryHangIsReported: restart of the watcher after a join that timed out, and the task listing, are not modelled.
- Parsing and rendering of ledgers, measuring sources, git, TOML, JSON and command lines; the order of violations and of merge-risk rows.
- ShardGate.Verify: the native follow-up, artifact identity (source, run, attempt, configuration digest), coverage data and timing digests are not modelled.
- PortableGate.VerifyPortable: artifact identity, attempts and timing digests are not modelled; the shared weights are a parameter.
- ShardSchedule.PartitionTestModules: refusals that only a wrongly typed value meets, and infinite or NaN durations, are not modelled.
- Parsing Python: a syntax tree comes as a value, with `if TYPE_CHECKING:` recognised. The stage order of capabilities only adds easy members.
- The patterns for seats, forbidden subjects, body tokens and dynamic run titles: predicates given as parameters.
- Import graph, CODEOWNERS and test-map construction behind merge risks: given as tables.
- Rendering of the capability block and the register table, and the JSON half of `check`.
