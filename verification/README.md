# workspace-mcp-manager: a verified model

`workspace-mcp-manager` is a deterministic control plane: it compares declared instances with an
observed host, plans operations, executes them under a record that can undo them, and keeps
journals for the operations that span several steps. This project models those protocols over
durable state and proves what they keep.

The host is a tree of paths (directories with a mode, files with text and mode, files that are no
text, nodes of other kinds), a map of units to enabled and active, and a git configuration. Each
write, rename, unlink, directory operation and unit action is one step; any of them may fail, and
where the source is journaled a crash may fall between any two. Units that run write their logs
whenever they like. Results of commands the manager only calls are arbitrary.

## How it is laid out

- `Text`, `Host`, `Sorting`: strings as the file readers see them, the tree and its operations, stable sorting.
- `Generation`, `Namespace`: the resources of a declaration, and why their paths and unit names do not collide.
- `Planning`, `Convergence`, `Evidence`, `Selection`, `PlanContents`: observation and planning, what an all-NOOP plan means,
  and what applied evidence gives back.
- `WritePlan`, `StalePlan`, `UnitPlan`, `GitPlan`: what a valid plan asks for.
- `Systemd`, `UnitRuns`, `UnitActs`: the order of unit operations, runs of them with any outcome, and when the tunnel keeps MCP.
- `Rollback`, `Restoration`, `Tracking`, `Placement`, `ResourceFiles`, `Footprint`: the rollback record, its completeness after
  every step, and what undoing brings back while units write and calls fail.
- `HostApply`: one apply. `Orphans`, `Ownership`: runs of applies, and other instances.
- `GitHubUrl`, `GitOwnership`, `GitReversal`: repository URLs, and the adoption, change and release of git settings.
- `Import`, `Upgrade`, `Fence`, `Maintenance`: the journaled transactions and the fence around an upgrade.
- `Pointer`, `Json`, `Provenance`, `Candidate`, `Composition`, `Endpoint`, `Ports`, `InstanceNames`: composing a candidate.
- `AdmissionGuard`, `BoundedCapture`: the restart guard and the bounded capture of command output.

Code that changes things step by step is a class or a method with a loop (`HostApplyService`, `ResourceWriter`,
`RollbackState`, `ServiceManager`, `WorkingTree`, `LegacyImport`, `InstanceUpgrade`, `ReleaseSwitch`, `Uninstall`,
`Composer`, `Guard`, `Capture`); the concurrent fence is a state machine over its steps; what only computes is a function.

## Where the code falls short of a promise

Each is a lemma, with the exact condition where there is one.

- A repository whose path holds `?`, `#`, a line break, or `;` in its last segment is not observed exact once it is switched to
  HTTPS (`GitHubUrl.CanonicalNames`, `GitReversal.TransportStep`), and then an apply does not converge (`HostApply.ExecutedSettles`).
- A credential helper present with an empty value is lost by adopting and releasing a transport (`GitReversal.AdoptRelease`,
  `GitReversal.BlankHelperLost`).
- A backup that is not UTF-8 stops the restoration (`Rollback.RestoreAborts`), and carriage returns do not survive it
  (`Text.UniversalExact`).
- A failure after the applied record was written leaves the record ahead of the disk (`Orphans.LateFailureExactly`,
  `Orphans.LateFailureOrphans`); an upgrade whose row was committed by such an apply only verifies it from then on
  (`Upgrade.InstanceUpgrade.Refresh`), so its recovery stays blocked until the instance converges by other means.
- An apply that fails may leave the tunnel active without MCP (`UnitActs.KeepsTetherExactly`, `UnitActs.RiskyBreaks`).
- Undoing may leave a new state directory without its owner marker (`Restoration.MarkerStaysExactly`, `Restoration.MarkerLost`).
- An import's restoration clears logs at `state_root/<id>` while the state directory is `state_root/instances/<id>`; logs there keep
  recovery from ending (`Import.LegacyImport.Recover`).
- An upgrade's review looks for pending imports before it lists the declarations, and the upgrade lists the names to quiesce before
  it takes the registry gate (`Fence.ReviewDecides`, `Fence.StaleListingLeaks`, `Fence.FenceExactly`).
- The endpoint gate is not atomic with the write (`Ports.RacingWritersCollide`), and `*` is taken for IPv4 alone (`Endpoint.StarExactly`,
  `Endpoint.StarMissesV6`).
- `suggest_instance_id` may try one candidate twice (`InstanceNames.TriesExactly`, `InstanceNames.TriedTwice`).
- The admission guard stamps an attempt before its probe and write, so two restarts may come closer than the cooldown
  (`AdmissionGuard.SlowThenFast`).

## Model

| member | source | states |
|---|---|---|
| HostApply.HostApplyService.Apply | src/workspace_mcp_manager/host_apply.py:529-675 | One apply, from whatever units it finds, any step of which may fail while the units run: a refused plan changes nothing; success leaves a plan of NOOPs, the record of the declaration, nothing of earlier declarations, no tunnel without MCP, and changes confined to what the plan names; any failure is undone (files as a text read gives them, directories, git settings; nothing new of the bundle but the state directory if a unit still ran, or what could not be removed), with the old record unless the failure came after WRITE_APPLIED; undoing is interrupted only by a failing write or a backup that is not text; a plan that does not converge means an unspellable repository name; its unit calls follow the plan's list and are undone newest first, and from a tunnel with its MCP they keep it after every call unless the apply is of the risky kind |
| HostApply.ExecutedSettles | src/workspace_mcp_manager/host_apply.py:615-631 | Convergence for present+running, present+stopped and absent alike: after a successful execution, planning again, with the old evidence or the new, finds nothing to do if and only if the transport's URL can spell the repository |
| HostApply.HostApplyService.Execute | src/workspace_mcp_manager/host_apply.py:677-829 | Execution of either kind keeps the rollback record complete, touches only what the plan names, calls the units in the order of the plan's list up to the first failure, and on success leaves every bundle file and unit as declared and everything obsolete gone |
| HostApply.HostApplyService.ExecutePresent | src/workspace_mcp_manager/host_apply.py:707-802 | The same for a present instance: access files, other files, git settings, units, obsolete units, removals |
| HostApply.HostApplyService.ExecuteAbsent | src/workspace_mcp_manager/host_apply.py:803-829 | The same for an absent instance; nothing happens before ownership is verified, and nothing is created |
| HostApply.HostApplyService.StopPass | src/workspace_mcp_manager/lifecycle.py:39-47 | The stop pass for runtime-only stops: the plan's STOPs in stop order up to the first failure, no other unit touched, no unit brought up |
| HostApply.HostApplyService.WriteAll | src/workspace_mcp_manager/host_apply.py:708-725 | Both rounds of writes: on success every bundle resource is in place with its mode and content, and only bundle paths (and parents, and logs) differ |
| HostApply.HostApplyService.ApplyDevelopment | src/workspace_mcp_manager/host_apply.py:965-990 | The git settings are backed up before the first change and end as identity and transport convergence leave them |
| HostApply.HostApplyService.StartPhase | src/workspace_mcp_manager/host_apply.py:737-752 | After ENABLE, START and RESTART each unit is where the passes put it; the calls are the plan's in start order, and the list of started units holds exactly those that were down and came up |
| HostApply.HostApplyService.ForceRestart | src/workspace_mcp_manager/host_apply.py:754-762 | A forced restart calls MCP, then the tunnel, and leaves everything running that ran |
| HostApply.HostApplyService.StopStale | src/workspace_mcp_manager/host_apply.py:764-788 | Obsolete units of one family stop, then are disabled, without touching a wanted one |
| HostApply.HostApplyService.ValidateRemovals | src/workspace_mcp_manager/host_apply.py:865-919 | Passing means every resource to be removed is observed exact or different, and a state directory holds its marker and runtime logs only |
| HostApply.HostApplyService.RemoveStale | src/workspace_mcp_manager/host_apply.py:790-797 | After the removals what earlier declarations left is gone and the bundle still fits |
| HostApply.HostApplyService.Qualify | src/workspace_mcp_manager/host_apply.py:616-638 | A second plan that is all NOOP before the record is all NOOP with the new record; the record is written only then |
| HostApply.HostApplyService.Undo | src/workspace_mcp_manager/host_apply.py:1168-1188 | Rollback from any state of the units: the started ones stop newest first, units of the plan only, then files, directories and git settings are back, while units that still run write their logs and any call may fail; what may be left behind is nothing, the state directory if a unit of the instance is still active, or any new bundle path if a removal failed; it is interrupted only by a failing write or a backup that is not text |
| Orphans.NoOrphans | src/workspace_mcp_manager/access.py:266-317 | Over every run of applies of one instance that succeed, are refused, or are undone with no removal failing, the access, guard and development paths on disk are exactly those of the last successful declaration, and the record is that declaration's |
| Orphans.SuccessIsExact | src/workspace_mcp_manager/host_apply.py:1144-1166 | One success turns 'exactly the last declaration's' into 'exactly this declaration's', present or absent, by finding everything dropped in the applied evidence |
| Orphans.UndoneSame | src/workspace_mcp_manager/host_apply.py:1768-1807 | After a failed apply was undone, with units still writing but no removal failing, the optional resources on disk are those there were before |
| Orphans.LateFailureExactly | src/workspace_mcp_manager/host_apply.py:633-652 | Where the guarantee ends: a failure after WRITE_APPLIED restores the files but not the record; the optional resources on disk are those of the new record if and only if the declaration kept and added exactly those of the last one |
| Orphans.LateFailureOrphans | src/workspace_mcp_manager/host_apply.py:633-652 | And what that declaration dropped stays and is no longer looked for |
| Ownership.PlannedAreOurs | src/workspace_mcp_manager/planning.py:145-232 | Every path a valid plan creates, rewrites or removes was free when planned or bore this instance's token in its marker or text; the two shared directories are only made or given their mode |
| Ownership.OthersUntouched | src/workspace_mcp_manager/generation.py:471-701 | At any point of an execution every file of an instance with another id, profile and workspace is as it was |
| Ownership.OthersUntouchedByUndo | src/workspace_mcp_manager/host_apply.py:1768-1807 | The same after a failed apply was undone |
| Ownership.OtherUnitsUntouched | src/workspace_mcp_manager/host_apply.py:954-963 | No unit of another instance is stopped, started, enabled or disabled, whatever its id spells |
| Namespace.BundlesApart | src/workspace_mcp_manager/generation.py:471-701 | Bundles of instances that differ in id, profile and workspace share only the two retained directories |
| Namespace.PathsApart | src/workspace_mcp_manager/generation.py:124-134 | Two resources on one path have the same identity up to a mount's mode, and the same id, profile or workspace unless shared |
| Namespace.BundleDistinct | src/workspace_mcp_manager/generation.py:471-701 | Within a bundle no two resources share an identity or a path |
| Namespace.UnitNamesApart | src/workspace_mcp_manager/generation.py:130-131 | A unit name determines the instance and the kind of unit |
| Planning.FileOperations | src/workspace_mcp_manager/planning.py:712-798 | One operation per resource and in order, the one its observation calls for; an id counts as changed exactly when its operation changes the file |
| Planning.UnitOperationsLoop | src/workspace_mcp_manager/planning.py:995-1061 | The loop yields an operation for a unit exactly when its state and changed file call for it (enable when wanted and disabled, start when it should run and does not, restart when it runs with a changed file, stop when it should not run, disable when it is to be gone), in resource order, each item about the resource that owns it |
| Planning.StaleScan | src/workspace_mcp_manager/admission_recovery.py:55-226 | The stale scans reject exactly when some entry is bad, and otherwise list a resource exactly when some entry is rebuilt to it |
| Planning.MakePlan | src/workspace_mcp_manager/planning.py:1101-1136 | The four loops, run one after the other over observed files, units, git settings and evidence, make the plan that every result is about, files first for a present instance and units first for an absent one |
| Convergence.NothingToDo | src/workspace_mcp_manager/planning.py:1101-1136 | A plan is all NOOP if and only if files, units, git settings and what earlier declarations left are as declared |
| Evidence.ListedAreObsolete | src/workspace_mcp_manager/access.py:302-317 | What a stale scan lists is recorded evidence, of its family, at its path, and shares neither id nor path with the bundle |
| Evidence.ListedExactly | src/workspace_mcp_manager/access.py:302-317 | A scan succeeds exactly when no entry is bad, and then lists exactly the entries that are rebuilt |
| Evidence.AccessRebuilt | src/workspace_mcp_manager/access.py:191-263 | An applied access resource is rebuilt exactly, whichever declaration of the instance in that workspace comes later |
| Evidence.InstalledRebuilt | src/workspace_mcp_manager/admission_recovery.py:55-139 | An applied guard or development resource is rebuilt exactly if it is in place as written, passed over if gone, rejected otherwise |
| Evidence.ModeChangeKeepsMount | src/workspace_mcp_manager/access.py:313-314 | Changing only an alias's mode never lists its mount directory for removal |
| Evidence.OwnEvidenceIsCurrent | src/workspace_mcp_manager/access.py:302-317 | With the evidence of the same declaration nothing is stale |
| StalePlan.StaleSettles | src/workspace_mcp_manager/planning.py:800-993 | Once what was listed is gone, all three scans find nothing again |
| StalePlan.RemovedBundleIsGone | src/workspace_mcp_manager/planning.py:712-798 | The removals of a plan for an absent instance leave none of the bundle that is not retained, and nothing stale |
| StalePlan.WayIsFree | src/workspace_mcp_manager/host_apply.py:1013-1015 | No parent directory made on the way to a bundle resource lands on an optional resource's path |
| WritePlan.WrittenFits | src/workspace_mcp_manager/host_apply.py:992-1022 | Both rounds of writes done, every bundle resource is in place |
| WritePlan.WritesAreFiles | src/workspace_mcp_manager/host_apply.py:708-718 | Only the file part of a valid plan writes |
| UnitPlan.CorePlan | src/workspace_mcp_manager/planning.py:995-1061 | A valid plan that stops MCP stops an active tunnel; for an instance that is to run it stops neither and starts each that is down; for one that is to be stopped it starts neither |
| UnitPlan.SettlesActivity | src/workspace_mcp_manager/planning.py:995-1061 | After the stop and start passes a wanted unit is active exactly when it should run |
| UnitActs.KeepsTetherExactly | src/workspace_mcp_manager/host_apply.py:922-963 | Starting from a tunnel that has its MCP, the tunnel keeps it after every stop, start, restart and rollback step, whichever of them fail and with whatever effect, if and only if the apply does not force a restart of a running instance, does not start both core units, and does not restart MCP under an active tunnel; all of it can be read from the units and the plan beforehand |
| UnitActs.RiskyBreaks | src/workspace_mcp_manager/host_apply.py:743-762 | For every apply of the other kind, a run that leaves the tunnel without MCP: a restart of MCP that fails, or a start of the tunnel that fails and yet leaves it active, so that the rollback stops MCP alone |
| UnitRuns.QuietKeeps | src/workspace_mcp_manager/host_apply.py:954-963 | Any list that only stops core units, the tunnel first, keeps the tunnel's MCP through every failure |
| UnitRuns.RunningKeeps | src/workspace_mcp_manager/host_apply.py:743-762 | Any list that stops no core unit and brings MCP up only before a tunnel that is down keeps it too, rollback included |
| ResourceFiles.ResourceWriter.ApplyResources | src/workspace_mcp_manager/host_apply.py:992-1022 | Creates and updates in order, units writing logs in between: the record stays complete and within the plan's reach, only the items' paths differ, and on success every item is in place |
| ResourceFiles.ResourceWriter.RemoveResources | src/workspace_mcp_manager/host_apply.py:1025-1067 | Files first, then the deepest directories: on success all are gone and nothing else changed; it is refused only where unknown content was |
| ResourceFiles.ResourceWriter.RemoveKnownRuntimeState | src/workspace_mcp_manager/host_apply.py:1070-1084 | Only the known logs go from a state directory, each backed up first |
| Rollback.RestoreInverts | src/workspace_mcp_manager/host_apply.py:1768-1807 | With nobody writing meanwhile and no call failing: after any prefix of an apply, restoring gives every earlier file its mode and its text as read (the oldest backup wins), every earlier directory, and nothing the record does not know |
| Rollback.RestoreAborts | src/workspace_mcp_manager/host_apply.py:1768-1772 | With no call failing, restoring stops with an exception exactly when some backup is not valid UTF-8 |
| Rollback.CreatedGoes | src/workspace_mcp_manager/host_apply.py:1795-1806 | With nobody writing meanwhile and no call failing, every path the apply created is gone again, where only logs of its own units were written beside it |
| Restoration.MarkerStaysExactly | src/workspace_mcp_manager/host_apply.py:1776-1806 | Undoing cannot leave a new state directory without its owner marker, whatever running units write and whichever removal fails, if and only if the marker is not to be removed at all (the directory held unknown content when it was looked at) or from the purge on no unit runs and no call fails |
| Restoration.MarkerLost | src/workspace_mcp_manager/host_apply.py:1795-1806 | The runs in which it does: a log written after the purge, or a directory that cannot be removed |
| Restoration.ReplayInverts | src/workspace_mcp_manager/host_apply.py:1768-1807 | A restoration that runs through met text only, and although units write and removals fail it gives back every earlier file and directory and leaves nothing the record does not know, logs aside |
| Restoration.ReplayClears | src/workspace_mcp_manager/host_apply.py:1776-1806 | If no removal failed, every created path that is not on the way to a log is gone again, and while no unit runs every created path is |
| Restoration.RollbackState.Restore | src/workspace_mcp_manager/host_apply.py:1768-1807 | The four loops, with logs written before any step and any call failing, give a tree that differs from the undisturbed one in the logs alone after two stages, and then compute the specified clean-up of it; an exception means a failing write or a backup that is not text |
| Restoration.RollbackState.Save | src/workspace_mcp_manager/host_apply.py:1757-1763 | A backup is recorded for files only, with content and mode; directories leave none |
| Footprint.WritesAreStepped | src/workspace_mcp_manager/host_apply.py:1000-1001 | The bundle's own directories are there, or come earlier, before what they hold is written |
| Footprint.ScopedIsUndisturbed | src/workspace_mcp_manager/host_apply.py:1747-1755 | Nothing an apply made on the way, and no log, stands in the way of removing what it created |
| Footprint.ReplayRollsBack | src/workspace_mcp_manager/host_apply.py:1768-1807 | After undoing, what the plan does not name is untouched, and no new path of the bundle is left but the state directory if a unit ran, or any if a removal failed |
| Text.UniversalExact | src/workspace_mcp_manager/host_apply.py:1771-1772 | A text read gives a file back unchanged exactly when it holds no carriage return |
| Systemd.TunnelIsOutermost | src/workspace_mcp_manager/host_apply.py:932-952 | For every instance id, even one that mentions the admission guard, the tunnel stops before MCP and starts after it |
| Systemd.ServiceManager.StopAll | src/workspace_mcp_manager/host_apply.py:954-963 | Stops in stop order: the calls made, up to the first failure, are the list's in order, and the units are what these calls, failing ones included, make them |
| Systemd.ServiceManager.StartEach | src/workspace_mcp_manager/host_apply.py:743-762 | Starts and restarts in the given order: the same, and the list of started units is that of the units that were down and came up |
| Systemd.ServiceManager.StopStarted | src/workspace_mcp_manager/host_apply.py:1168-1174 | The unit part of a rollback: one stop per started unit, newest first, past every failure; what is still active is what failed to stop |
| GitReversal.Reversible | src/workspace_mcp_manager/development_environment.py:437-534 | From settings without manager keys, single-valued and not blank, any interleaved run of gated identity and transport converges by any instances never raises, and once released gives back exactly the starting configuration |
| GitReversal.IdentityStep | src/workspace_mcp_manager/development_environment.py:437-481 | A planned identity change never raises, touches identity settings only and is observed exact afterwards |
| GitReversal.TransportStep | src/workspace_mcp_manager/development_environment.py:483-534 | A planned transport change never raises and touches transport settings only; it is observed exact afterwards if and only if the protocol's URL can spell the repository |
| GitReversal.AnotherRepository | src/workspace_mcp_manager/development_environment.py:483-534 | The run that shows it: 'git@github.com:o/r?x' adopted over SSH and then declared HTTPS converges without raising, is observed different, and the next converge rewrites the remote to repository 'o/r' |
| GitReversal.AdoptRelease | src/workspace_mcp_manager/development_environment.py:483-534 | Adopting and releasing gives the configuration back if and only if the setting the protocol writes was not there before |
| GitReversal.BlankHelperLost | src/workspace_mcp_manager/development_environment.py:483-534 | A blank credential helper, which resets inherited helpers, is lost by adopting and releasing |
| GitOwnership.WorkingTree.ConvergeIdentity | src/workspace_mcp_manager/development_environment.py:437-481 | The set and unset commands in order compute the specified identity settings; a refusal comes before any change |
| GitOwnership.WorkingTree.ConvergeTransport | src/workspace_mcp_manager/development_environment.py:483-534 | The same for the transport |
| GitPlan.GitSettles | src/workspace_mcp_manager/planning.py:1064-1099 | The git part of a valid plan succeeds and leaves nothing to do if and only if the repository can be spelled |
| GitHubUrl.CanonicalNames | src/workspace_mcp_manager/development_environment.py:185-231 | The canonical URL of a repository names that repository again if and only if the name can be spelled in it: over HTTPS without '?', '#', line breaks, or ';' in the last segment |
| GitHubUrl.CanonicalProtocol | src/workspace_mcp_manager/development_environment.py:213-231 | A canonical URL is recognised as speaking the protocol it was made for |
| Import.LegacyImport.Campaign | src/workspace_mcp_manager/legacy_import.py:598-744 | One import under any sequence of crashes and recoveries: at every moment it can be finished or undone, and whenever no journal is left it either took place (receipt, declaration, every original in its backup) or never happened (every original back with its identity, nothing generated, no declaration, units as recorded) |
| Import.LegacyImport.Transfer | src/workspace_mcp_manager/legacy_import.py:598-642 | Handing over; whatever raises before the receipt is undone |
| Import.LegacyImport.Recover | src/workspace_mcp_manager/legacy_import.py:778-795 | Recovery finishes what has a receipt and undoes what has none; it is refused only for runtime logs in the generated state directory, and such logs always prevent it from ending |
| Import.LegacyImport.Restore | src/workspace_mcp_manager/legacy_import.py:656-744 | From any point of the handover or of an earlier restoration, originals come back and everything the import made goes |
| Import.LegacyImport.FinishCommit | src/workspace_mcp_manager/legacy_import.py:647-654 | A committed import keeps receipt, declaration and backups while its journal is cleared |
| Import.BackIsRestored | src/workspace_mcp_manager/legacy_import.py:656-744 | With every original back and nothing generated left, the import never happened |
| Import.ReceiptCommits | src/workspace_mcp_manager/legacy_import.py:636-641 | Writing the receipt once everything has moved is the commit point |
| Upgrade.InstanceUpgrade.Campaign | src/workspace_mcp_manager/instance_upgrade.py:84-230 | An upgrade under any crashes, failures and recoveries: rows are always completed ones, then at most one in progress, then pending ones, never go back, each declaration is what its phase permits, each instance is applied at most once per token; ending means exactly the candidates, each present instance applied exactly once |
| Upgrade.InstanceUpgrade.Continue | src/workspace_mcp_manager/instance_upgrade.py:159-230 | Resuming from any journal that was left keeps all of that, and ends only with every row completed |
| Upgrade.InstanceUpgrade.Refresh | src/workspace_mcp_manager/instance_upgrade.py:184-217 | One row: a commit that is on record is never repeated, and its row is verified only, even if the apply that committed it failed afterwards and was undone |
| Upgrade.InstanceUpgrade.Verify | src/workspace_mcp_manager/instance_upgrade.py:162-183 | The checks before resumed work never reject the upgrade's own progress |
| Fence.OnlyTheUpgrader | src/workspace_mcp_manager/instance_upgrade.py:84-111 | Over every run of any number of processes whose reviews list no declaration of an import that may still be undone, while the upgrade journal is there no registry write and no apply takes effect but the upgrader's for its authorised instance |
| Fence.JournalFences | src/workspace_mcp_manager/maintenance.py:312-344 | Quiescing drained every process that had passed the guard by the time the journal is written, when the listing covers the reviewed instances |
| Fence.FenceExactly | src/workspace_mcp_manager/registry.py:59-75 | The fence goes up with the journal exactly when no process outside the listed names is in the middle of an apply |
| Fence.ReviewDecides | src/workspace_mcp_manager/legacy_import.py:656-744 | From rest, a review cannot lead to another process applying while the upgrade journal is there if and only if none of the declarations it lists is of a pending import without a receipt |
| Fence.StaleListingLeaks | src/workspace_mcp_manager/instance_upgrade.py:50-62 | The code lets it come about: the preview looks for pending imports first and lists the declarations later, so an import that declares an instance in between is listed, undone, and declared again after the upgrade listed its names |
| Composition.Composer.Compose | src/workspace_mcp_manager/setup_projection.py:914-1261 | Composing a candidate from template, copy source, match, discovery, edits and access: the provenance keys are exactly the leaf pointers of the declaration; every accepted edit is in force unless a derivation cleared an unused setting; nothing else reaches version, workspace or deployment |
| Composition.Composer.Assign | src/workspace_mcp_manager/setup_projection.py:754-806 | An assignment with its provenance keeps the index exact, reads back, and changes nothing at independent paths; it fails exactly when the path is not there |
| Composition.Composer.FieldEdits | src/workspace_mcp_manager/setup_projection.py:1136-1192 | A list of edits passes if and only if it is accepted (editable, clearable where cleared, free of duplicates and of settings the access mode manages) and all its paths can be set; the declaration is then their application |
| Composition.PermutationsAlike | src/workspace_mcp_manager/setup_projection.py:1154-1192 | Every permutation of a list of edits is accepted or refused alike, and gives the same declaration |
| Composition.Composer.DeriveGithub | src/workspace_mcp_manager/setup_projection.py:1194-1237 | Disabled GitHub clears its settings, managed GitHub derives them from the id, and nothing else changes |
| Composition.Composer.CopyFrom | src/workspace_mcp_manager/setup_projection.py:954-978 | The reusable settings and the access list are those of the copy source |
| Provenance.MarkedIsIndexed | src/workspace_mcp_manager/setup_projection.py:791-806 | Assigning and marking one subtree keeps the index exact: no leaf missing, none left over from what was replaced |
| Provenance.LeafPointersSpell | src/workspace_mcp_manager/setup_projection.py:767-781 | The recorded pointers spell exactly the leaf paths, for keys of any text |
| Provenance.PutLeaves | src/workspace_mcp_manager/setup_projection.py:754-764 | The leaves after an assignment: below the path those of the new value, elsewhere the old |
| Json.GetPut | src/workspace_mcp_manager/setup_projection.py:745-764 | What was set is what is read |
| Json.GetOther | src/workspace_mcp_manager/setup_projection.py:745-764 | Setting changes nothing at an independent path |
| Json.OrderOfEdits | src/workspace_mcp_manager/setup_projection.py:754-764 | Edits at pairwise independent paths give the same declaration, or fail, in every order |
| Candidate.EditsCommute | src/workspace_mcp_manager/setup_projection.py:1154-1192 | Every order of an accepted list of field edits gives the same declaration |
| Candidate.EditableIndependent | src/workspace_mcp_manager/setup_projection.py:60-87 | No editable pointer lies at or below another |
| Candidate.FingerprintIgnoresOrder | src/workspace_mcp_manager/setup_projection.py:1295-1303 | Edits enter the input fingerprint in one order, whichever they came in |
| Pointer.DecodeEscape | src/workspace_mcp_manager/setup_projection.py:737-739 | Decoding undoes escaping for every key (section 4 of RFC 6901) |
| Pointer.EscapeDecode | src/workspace_mcp_manager/setup_projection.py:737-739 | Escaping undoes decoding for every well-escaped part |
| Pointer.RefusedExactly | src/workspace_mcp_manager/setup_projection.py:739-741 | The short-cut check refuses exactly the parts with an invalid escape |
| Pointer.PartsOfPointer | src/workspace_mcp_manager/setup_projection.py:732-742 | A pointer made from non-empty keys addresses exactly those keys |
| Pointer.EmptyKeyRefused | src/workspace_mcp_manager/setup_projection.py:733-734 | An empty key is spelled but never addressed |
| Pointer.StringPrefixIsPathPrefix | src/workspace_mcp_manager/setup_projection.py:801-802 | The string test for a replaced subtree is the prefix order of paths |
| Endpoint.OverlapIsMeeting | src/workspace_mcp_manager/endpoint_projection.py:80-111 | On address literals the overlap is always decided, and true exactly when ports are equal and the bind sets meet |
| Endpoint.WithheldExactly | src/workspace_mcp_manager/endpoint_projection.py:80-111 | No answer is given exactly when it depends on how names resolve, or for a name on the port of a wildcard that takes both families, where it would be a collision in any case |
| Endpoint.OverlapSymmetric | src/workspace_mcp_manager/endpoint_projection.py:80-111 | Overlap is symmetric |
| Endpoint.AnswerHolds | src/workspace_mcp_manager/endpoint_projection.py:80-111 | An answer that is given holds however names resolve |
| Endpoint.StarExactly | src/workspace_mcp_manager/endpoint_projection.py:74-75 | A listener spelled '*' counts as the IPv4 wildcard; for an address on its port this gives the answer a wildcard of both families would, if and only if the address is IPv4 or itself a wildcard of both families |
| Endpoint.StarMissesV6 | src/workspace_mcp_manager/endpoint_projection.py:74-75 | So an IPv6 loopback on the port of '*' is held to be free, where a wildcard of both families collides |
| Ports.Conflicts | src/workspace_mcp_manager/endpoint_projection.py:114-123 | The loop finds exactly the overlapping endpoints, and whether any overlap is unknown |
| Ports.Recommend | src/workspace_mcp_manager/setup_projection.py:651-666 | The recommended port is the least of the range that is provably free, and none is recommended only if there is none |
| Ports.Project | src/workspace_mcp_manager/setup_projection.py:668-729 | The projection is 'conflict' if some endpoint provably collides, else 'unknown' if anything is undecided, else 'clear' |
| Ports.ClearExactly | src/workspace_mcp_manager/setup_projection.py:699-729 | A candidate is clear exactly when each endpoint is provably apart from all it is compared with and, where it changes, the listeners are known |
| Ports.RecommendedIsClear | src/workspace_mcp_manager/setup_projection.py:651-729 | An unedited pair of recommendations projects as clear when listeners are available, whatever id the candidate takes |
| Ports.GateDisjoint | src/workspace_mcp_manager/cli.py:559-573 | A declaration that passes the gate is disjoint from all others and in itself |
| Ports.RunKeepsSound | src/workspace_mcp_manager/cli.py:559-588 | Over every serial run of registry writes, edits and upgrades all declared endpoints stay pairwise provably disjoint |
| Ports.BothPassedExactly | src/workspace_mcp_manager/cli.py:559-582 | Two new declarations that both passed against one sound registry leave it sound together if and only if their endpoints are provably apart |
| Ports.RacingWritersCollide | src/workspace_mcp_manager/cli.py:559-582 | The gate is not atomic with the write: when two writers look before either writes, a sound registry ends sound if and only if their declarations are apart from each other; one after the other it always does |
| InstanceNames.Suggest | src/workspace_mcp_manager/setup_projection.py:129-140 | The loop ends with an unused, well-formed name of at most 63 characters (for any registry below 10^61 names): the base itself, or its first free suffix, found by suffix |used| + 2 at the latest, and with more than |used| + 1 tries exactly in the case of `TriesExactly` |
| InstanceNames.SuffixedInjective | src/workspace_mcp_manager/setup_projection.py:135-137 | Distinct suffixes give distinct names despite the truncated stem |
| InstanceNames.NormalizeWellFormed | src/workspace_mcp_manager/setup_projection.py:122-126 | A normalized id is well formed and at most 63 characters |
| InstanceNames.NormalizeIdempotent | src/workspace_mcp_manager/setup_projection.py:122-126 | Normalizing twice is normalizing once |
| InstanceNames.TriesExactly | src/workspace_mcp_manager/setup_projection.py:129-140 | The search takes more than |used| + 1 tries, the base included, if and only if the names in use are exactly the first suffixed names of the base; so |used| + 1 suffice whenever the base is none of its own suffixed names |
| InstanceNames.TriedTwice | src/workspace_mcp_manager/setup_projection.py:129-140 | The input that shows it: a long base that is its own suffixed name |
| AdmissionGuard.Guard.RunGuard | src/workspace_mcp_manager/runtime.py:315-402 | One run under any clock reading, write failure or crash: an attempt is recorded with the clock reading before the restart is carried out some delay later, never inside the cooldown or before the last one, every saturation is answered by a suppression or an attempt, and the counters tell the history |
| AdmissionGuard.Guard.Campaign | src/workspace_mcp_manager/runtime.py:315-402 | Over any sequence of runs recorded attempts lie at least the cooldown then in force apart, restarts at least that less how much later than its record the earlier one was carried out than the later one, and saturations equal suppressions plus attempts |
| AdmissionGuard.RestartsSpaced | src/workspace_mcp_manager/runtime.py:324-366 | Restarts, each of them some time after its recorded attempt, are spaced like the attempts but for the difference of their delays |
| AdmissionGuard.SlowThenFast | src/workspace_mcp_manager/runtime.py:324-366 | Two restarts whose attempts are a cooldown apart come closer than it if and only if the earlier one was the slower to be carried out |
| AdmissionGuard.WindowBound | src/workspace_mcp_manager/runtime.py:334-346 | With cooldown c a window of length T holds at most T / c + 1 attempts |
| BoundedCapture.Capture.Collect | src/workspace_mcp_manager/github_access.py:170-225 | Under every interleaving: each buffer is a prefix of its stream, together within the limit; once both readers were joined the flag is set exactly when the streams exceed the limit, and otherwise the output is complete |
| BoundedCapture.Capture.Step | src/workspace_mcp_manager/github_access.py:176-194 | Every turn of a reader keeps the total, the prefixes, and overflow exactly when a byte was dropped; buffers only grow |
| BoundedCapture.StoreSound | src/workspace_mcp_manager/github_access.py:184-191 | A chunk cut short is a drop, and what follows a drop is never kept |
| Maintenance.ReleaseSwitch.Campaign | src/workspace_mcp_manager/maintenance.py:509-536 | A release rollback under crashes and recoveries ends with current at the previous or the target release, a receipt naming that one, no temporary link and no journal, or with nothing changed; recovery is never refused |
| Maintenance.ReleaseSwitch.Recover | src/workspace_mcp_manager/maintenance.py:667-686 | Recovery of a release rollback, from any point, repeatably |
| Maintenance.Uninstall.Campaign | src/workspace_mcp_manager/maintenance.py:537-571 | An uninstall under crashes and recoveries ends with the whole program as it was, or gone with its commands and receipt; the root moves only when every declaration is absent and stopped and no unit refers to it |
| Maintenance.Uninstall.Recover | src/workspace_mcp_manager/maintenance.py:640-665 | Recovery keeps the whole root or finishes the removal, and is never refused |
| Maintenance.Uninstall.Finish | src/workspace_mcp_manager/maintenance.py:607-638 | Finishing a removal works from any partial removal and takes exactly the program's own commands |

## Left out

- Registry, host and listener conflicts of the planner: their outcome is taken as preconditions on home, workspace and the tree (`HostReady`, `Sited`).
- Residue of a failed first apply, and its recovery: runs start from states without it.
- The order in which a plan lists stale and absent resources: execution sorts what it removes and the unit operations itself.
- `daemon-reload`, readiness probes, the access namespace preflight and the transaction journal: steps with arbitrary results, and no effect on the modelled state.
- Text of rendered units, launchers and profiles below the owner line: a body taken as given, without carriage returns.
- Parents made on the way get mode 0700, as under the umask the manager runs with.
- The git configuration file is a map of keys to values; its backup and restoration keep that map.
- What is on disk after a restoration was interrupted: only why it was is stated.
- UnitActs.KeepsTetherExactly: each call changes one unit; what the service manager itself propagates along `Requires=` (generation.py:409), and units that die on their own, are not part of the model.
- Restoration.ReplayInverts: modes of directories changed by an UPDATE are not restored, because directories are not backed up.
- HostApply.ExecutedSettles: stated for git settings that began without manager keys, single-valued and not blank; what happens with a blank setting is `GitReversal.AdoptRelease`.
- Orphans.NoOrphans: one workspace and one home throughout, and nobody else making paths in the access directory; the policy override of an import is not part of this model.
- Ownership.OthersUntouched: the two shared directories may get their mode, and a directory made on the way may appear where another instance has nothing yet.
- A changed tunnel profile name leaves the old profile file behind, since no stale scan covers it.
- Import.LegacyImport.Campaign: shared directories made on the way and enablement links are not tracked, and originals are whole files or directories with an identity.
- A crash between an import's backup directory and its journal (legacy_import.py:598-609) leaves an empty directory that blocks later imports of that instance; the model's import starts with the journal.
- Legacy configuration parsing, template recognition and the retirement of the legacy toolkit.
- Fence.ReviewDecides: stated for a review made while no other process runs; `Fence.OnlyTheUpgrader` is about every run.
- Fence.OnlyTheUpgrader: the two lock files of a name are taken in one step, because they are taken together and released together.
- Backups of declarations kept beside an upgrade, and pruning: never read back by the protocol.
- Maintenance.Uninstall.Campaign: the removal of one instance is a step that may fail part of the way; the backup of user data and the recovery capsule are not modelled.
- Validation of releases, entry points and runtimes before maintenance: their outcome is fixed by an unchanged program tree.
- Composition.Composer.Compose: access edits arrive as a new access value, because only their place in the index matters here; the final validation of the declaration may refuse more.
- Composition.Composer.DeriveGithub: an instance id that is no string is refused at once, because the final validation refuses it.
- Endpoint.OverlapIsMeeting: the address library is any pair of parser and printer that agree; IPv6 scope ids are not part of it.
- Parsing of `ss` output, the merged endpoint listing and fingerprints of projections.
- InstanceNames.Suggest: the compatibility decomposition of the text to ASCII happens before the model.
- InstanceNames.Suggest: the length bound needs fewer than 10^61 names in use, because beyond that the suffix alone fills the name.
- AdmissionGuard.Guard.RunGuard: one guard runs at a time, as its unit ensures, and the evidence file is written by the guard alone; damaged evidence is an error before anything happens.
- BoundedCapture.Capture.Collect: polling, time-outs and the settling of the process are not modelled; the streams are whatever the pipes deliver.
- URLs with bracketed hosts and white space beyond ASCII.
- `cli.py` dispatch, the execution bridge, `cleanup.py`, `codex_jobs.py`, `reboot.py`, diagnostics and the GitHub token helpers.
