# Verified models of an agent runtime

A Dafny model of the parts of the agent runtime in which many cases, failures or
processes meet: the permission algebra, the commit transaction of git delivery, workspace
checkpoints, the compare-and-swap configuration files with their crash-safe installs, the
background host and its lineage authorization, and three bounded counters. Check it with
`dafny verify dfyconfig.toml`.

## How the model is laid out

**Permissions.** A policy is a tree of ceilings. `Permissions` defines when a tree allows an
access: at every node, for the lexical path and its real target, the most specific rule
decides (deny over write over read on ties), private paths and policy sources stand apart, and
tool, network and command decisions are maxima over the tree. `PolicyMeaning` says the same of the
nodes one by one, without ranks: which rules cover a path and its real target, what each node says of a
tool, a URL or a command. The file system is a `World`:
how a path resolves, what lies under what, when two paths are one file. `PrefixWorld` says
"under" is the component prefix, `Lexical` adds that there are no links. `Revisions` shows
that every decision is a function of the canonical revision; `Intersection` that intersecting,
with its early returns, flattening, deduplication and hoisted sources, computes the exact
meet; `Sandbox` that the flat rule list means the tree; `Resolution` that guards at metadata
names change no decision; `ReadFiles` what a selection of files adds; `Relocation` what a child
workspace may do, exactly; `RelocationLimits` what goes wrong without each proviso.
`PolicyOps` holds the loops and accumulators that compute all this.

**Delivery.** `GitDelivery` runs the commit transaction on HEAD, refs, index, lock and branch
configuration, with a plan that lets every git command fail before or after its effect. Git gives the
branch HEAD is on by the shortest name no other ref goes by, which need not be its own.

**Checkpoints.** `WorkspaceRestore` edits a layout of files and directories towards a target
tree, with directories pruned and made on the way, obstructions by files the snapshot does not
see, a fault at any file operation, and a rollback to the anchor. What is observed is an arbitrary
function of the workspace at each staging. The workspace after a complete edit is a function of the
one before and the target, directories included, and so is the exact condition for success and, with
nothing in the way, for a true report. The theorems named Steady are about workspaces and targets for
which the same kind of path is observed wherever a restore may lead; `RestoreLimits` has the actual
rule, when it is steady, and two restores where it shifts. `CheckpointMessage` writes and reads the
commit message, in the JSON and the older subject-line format.

**Files under compare-and-swap.** `VersionedFile` is the abstract account: a run of calls by
any processes. `SessionStore`, `ControlPlane` and `Registry` are the stores; `AtomicFiles` is the
replace and install protocol, its trail holding what a crash would leave after each step, and what
a stopped machine may leave of it; `TrustProtocol` is any number of initializers and unlocked
readers at once, crashing and restarting.

**Background work.** `HostQueue` is the queue of commands and the live sessions, `HostLog` what a tick
does, event by event, `HostTick` the host with its drivers, `Lineage` the
authorization of a caller on another workspace's work, `Chains` the walk along a partial
successor.

**Counters.** `DailyBudget`, `SectionWindows` and `PromptHistory`.

Digests stand for the value they digest. Locks make the calls they protect steps of a run.
The JSON and YAML libraries enter by contract: an object printed and read again is itself, and
`ensure_ascii` output is one line of printable characters.

## Where the code does less than one might expect

- A delivery that ends as not committed leaves HEAD and every ref as they were, with three exceptions;
  `GitDelivery.Repository.Deliver` states the exact condition of each. `show-ref` is read as "no such
  branch" whatever its failure, and when the branch does exist at HEAD's commit the rollback deletes it
  (`GitDelivery.SilentProbeLosesBranch`). What `rev-parse --abbrev-ref HEAD` prints is taken for the
  branch's name. Beside a tag or other ref of that name it is a longer one: after a delivery to a new
  branch fails, HEAD is left on a branch of the longer name, which need not exist
  (`GitDelivery.TagMovesHead`); and a delivery onto the longer name commits to the real branch, while
  the ref of the longer name is the one inspected (`GitDelivery.LongNameHidesCommit`).
- A relocated policy does not move its sources, so a child's copy of the policy file is
  writable (`RelocationLimits.RelocatedPolicyFileWritable`). The other provisos of relocation are
  needed too.
- Selecting a session model does not check preference keys; a padded key makes the file
  unreadable (`SessionStore.PaddedKeyLocksOut`).
- Request preferences configured for one process alone are in its memory under the file's version. A
  later persisted request preference, for any model, writes them to the file over the ones that are
  there (`ControlPlane.LocalPreferenceOverwrites`; `ControlPlane.ConfigureSpares` has the exact
  condition).
- Restoring a checkpoint can fail without any I/O error when something the snapshot does not
  see, an empty directory below a target file included, is in the way; it then rolls back.
- What a snapshot observes depends on the temporary runtime layout of the moment. A restore during
  which that matters can overwrite or delete unobserved files, fail, and still report a complete
  rollback (`RestoreLimits`); `WorkspaceRestore.ReportTrueExactly` says exactly when the report is true,
  and `SettledReport`, `LayoutStaysOn` and `LayoutStaysOff` which workspaces and targets are safe.
- Reading the trust domain takes no lock. A reader that looked before the key was linked and reads
  before the temporary link is removed is turned away (`TrustProtocol.ReaderRejectedExactly`).

## Model

| member | source | states |
|---|---|---|
| PolicyOps.SelectRule | agent_runtime/permission_policy.py:248-252 | the loop finds a rule that no matching rule outranks in specificity, then access order; none only when no rule matches |
| PolicyOps.CandidateReason | agent_runtime/permission_policy.py:238-256 | one candidate passes exactly when it avoids private paths, and for writes the read-only profile, sources and metadata, and the deepest rules covering it hold no denial and, for a write, a write rule |
| PolicyOps.PathReason | agent_runtime/permission_policy.py:228-261 | authorized exactly when every node of the tree admits both the path and its real target; each refusal names something true of the tree |
| PolicyMeaning.AllowsMeans | agent_runtime/permission_policy.py:228-261 | a tree allows an access exactly when at every node the path and its real target both avoid private paths, for writes sources, metadata and read-only profiles, and are granted by the deepest rules that cover them |
| PolicyMeaning.ToolMeans | agent_runtime/permission_policy.py:286-289 | a tool is denied exactly when some node has a matching rule that denies, asked when none denies and one asks, allowed when only permissions match |
| PolicyMeaning.NetworkMeans | agent_runtime/permission_policy.py:291-310 | a URL likewise, from what each node says: its address, own decision and domain lists may refuse, else its rules for the host, else its decision |
| PolicyMeaning.CommandMeans | agent_runtime/permission_policy.py:312-317 | commands likewise: a node with domain lists or rules denies |
| PolicyMeaning.ApprovalMeans | agent_runtime/permission_policy.py:191-195 | never and read-only hold exactly when some node says so |
| PolicyMeaning.NamesMeans | agent_runtime/permission_policy.py:380-381 | a domain pattern is the host itself, or "*." before a domain the host lies below |
| Sandbox.WriteImpliesRead | agent_runtime/permission_policy.py:223-226 | a tree that lets a path be written lets it be read, so the three-way projection loses nothing |
| Sandbox.TreeTransfers | agent_runtime/permission_policy.py:210-226 | two paths that no boundary of any node separates are decided alike by the whole tree |
| Sandbox.SandboxExact | agent_runtime/permission_policy.py:210-226 | most-specific reading of the flat list, with the floor against metadata writes, decides every symlink-free path exactly as the tree |
| PolicyOps.ComputeRevision | agent_runtime/permission_policy.py:168-189 | the walk gathers exactly the declarations, order inside their lists forgotten, and the absolute sources of the tree |
| PolicyOps.Collector.Collect | agent_runtime/permission_policy.py:172-186 | adds the atoms and sources of one subtree and nothing else |
| Revisions.AllowsByRevision | agent_runtime/permission_policy.py:168-189 | the path decision of a tree is a function of its revision alone |
| Revisions.SameAtom | agent_runtime/permission_policy.py:168-189 | two declarations digest alike exactly when they agree in every field up to the order of lists, sources and ceilings aside |
| Revisions.ToolByRevision | agent_runtime/permission_policy.py:286-289 | the tool decision is at most a level exactly when every matching rule of every atom is |
| Revisions.NetworkByRevision | agent_runtime/permission_policy.py:291-310 | the network decision is at most a level exactly when every atom's is |
| Revisions.CommandByRevision | agent_runtime/permission_policy.py:312-317 | the command-network decision likewise |
| Revisions.ApprovalByRevision | agent_runtime/permission_policy.py:191-195 | approval is never exactly when some atom says so |
| Revisions.EqualRevisionsDecideAlike | agent_runtime/permission_policy.py:323-324 | equal revisions decide every path, tool, URL, command and approval alike, which is what the early returns rely on |
| Revisions.JoinIsMeet | agent_runtime/permission_policy.py:319-347 | a policy whose revision is the union of two revisions allows what both allow, and takes the maximum of their levels |
| PolicyOps.Builder.Retain | agent_runtime/permission_policy.py:331-342 | appends sources and unseen declarations of a subtree in traversal order |
| PolicyOps.IntersectPolicies | agent_runtime/permission_policy.py:319-347 | fails on different workspaces, otherwise the intersection, early returns included |
| Intersection.RetainKeeps | agent_runtime/permission_policy.py:331-339 | flattening keeps ceilings flat, distinct and off the root, and loses no declaration or source |
| Intersection.IntersectionJoins | agent_runtime/permission_policy.py:319-347 | on every branch the result's revision is the union of both |
| Intersection.IntersectionIsMeet | agent_runtime/permission_policy.py:319-347 | the intersection allows exactly what both allow; a tool, URL or command is denied exactly when either denies, asked exactly when neither denies and either asks, undecided exactly when both are; approval is never when either says so |
| Intersection.IntersectionKeeps | agent_runtime/permission_policy.py:319-347 | fails exactly on different workspaces; returns the first policy when it or one of its ceilings states the second; otherwise only ceilings and sources change, its own sources first, all of both at the root |
| Intersection.IntersectionNormal | agent_runtime/permission_policy.py:325-347 | results are flat, with distinct ceilings and none repeating the root |
| Intersection.FoldStaysNormal | agent_runtime/permission_policy.py:325-347 | folding any policies in keeps this shape, with exactly one ceiling for each distinct declaration seen |
| Intersection.FoldRepeats | agent_runtime/permission_policy.py:323-347 | intersecting again with a policy already folded in changes no ceiling |
| Intersection.IntersectionIdempotent | agent_runtime/permission_policy.py:323-347 | intersecting twice with one policy equals intersecting once, sources and order included |
| Resolution.Resolve | agent_runtime/permission_policy.py:134-152 | workspace grant, declared rules, a guard at each metadata name of each granted directory, then the private path, the other fields as declared |
| Resolution.BaseRulesAre | agent_runtime/permission_policy.py:134-140 | the declared rules: the workspace's own, the whole disk to read for a trusted profile, and each declared path against the workspace |
| Resolution.ResolvedGuards | agent_runtime/permission_policy.py:145-152 | exactly one kind of rule is added: at each metadata name of each directory opened, to read where the declaration reads and to deny elsewhere |
| Resolution.NormalizeCancels | agent_runtime/permission_policy.py:354-356 | "." and empty names do not count, ".." takes back the name before it and stays at the root |
| Resolution.NormalizePlain | agent_runtime/permission_policy.py:354-356 | a path of plain names stands for itself |
| Resolution.GuardsKeepReads | agent_runtime/permission_policy.py:145-149 | guards change no read decision, nested or at existing rules, since the guard at a name says what the base policy says there |
| Resolution.GuardsAreNeutral | agent_runtime/permission_policy.py:145-149 | appending any guards leaves every read and write decision as it was |
| Resolution.ResolvedDecides | agent_runtime/permission_policy.py:134-152 | a resolved policy decides as its declaration without guards, less the private command state: the deepest declared rules grant, and a write needs a profile that writes and no metadata name |
| ReadFiles.WithReadFiles | agent_runtime/permission_policy.py:263-280 | fails when a path does not resolve; otherwise exactly the earned read rules are added and no other field changes; a selected file and its real target are then granted where no deny rule covers them |
| ReadFiles.SelectionAdds | agent_runtime/permission_policy.py:263-280 | every added rule reads a selected file or its real target that no deny rule covers and that could not be read; no rule goes |
| ReadFiles.SelectionOnlyAddsReads | agent_runtime/permission_policy.py:263-280 | no read is lost and no write gained, links included |
| ReadFiles.SelectionOverridesNoDenial | agent_runtime/permission_policy.py:275-276 | a path that a deny rule decides stays refused |
| ReadFiles.AddedReadsAreSelected | agent_runtime/permission_policy.py:274-279 | every added read has a candidate at or below a selected file |
| ReadFiles.SelectedFileReadable | agent_runtime/permission_policy.py:263-280 | a selected file is readable afterwards exactly when ceilings, privacy and resolution admit it and, of the path and its real target each, it was granted already or no deny rule covers it |
| Relocation.RelocationConfines | agent_runtime/permission_policy.py:468-474 | whatever the relocated policy lets through lies at or below the destination, and so does its real target |
| Relocation.RelocationKeepsDecisions | agent_runtime/permission_policy.py:453-474 | tool, network, command and approval decisions are the parent's |
| Relocation.LandedDecides | agent_runtime/permission_policy.py:454-461 | the child's rules grant destination/x exactly when the rule that decides it there, read off the parent's rules, permits: the deepest landing one, moved or staying behind |
| Relocation.MovedGrantsAlike | agent_runtime/permission_policy.py:454-461 | where a rule that moves decides the child, the child grants what the parent grants at source/x |
| Relocation.RelocationExact | agent_runtime/permission_policy.py:453-474 | the child's decision at destination/x, both ways and for every policy, in terms of the parent's tree |
| Relocation.RelocationMeans | agent_runtime/permission_policy.py:453-474 | the same node by node: moved rules, moved private paths and unmoved sources of every node of the parent |
| Relocation.MoveMeans | agent_runtime/permission_policy.py:454-456 | what lies below the source lands below the destination, the rest stays |
| Relocation.RelocationNarrowsReads | agent_runtime/permission_policy.py:453-474 | for every policy: a read the child has was the parent's exactly when no private path lies strictly above the source and at every node a moved rule decides or the node grants source/x |
| Relocation.RelocationNarrowsWrites | agent_runtime/permission_policy.py:453-474 | likewise for a write, when besides the source names no metadata directory and no policy source covers the path |
| Relocation.AnchoredNarrowsReads | agent_runtime/permission_policy.py:453-474 | with a rule at the source root and none staying behind below the destination at every node, only private paths above the source remain to mind |
| RelocationLimits.UnanchoredRelocationWidens | agent_runtime/permission_policy.py:454-461 | without a rule at the source root a grant above the destination leaks in |
| RelocationLimits.RulesAtDestinationWiden | agent_runtime/permission_policy.py:454-461 | a grant already below the destination overrides the parent's denial |
| RelocationLimits.RelocatedPolicyFileWritable | agent_runtime/permission_policy.py:458-466 | sources stay behind, so the child's copy of a protected policy file is writable |
| GitDelivery.Repository.Transact | agent_runtime/git_delivery.py:346-385 | exactly when the body finishes, and what HEAD, refs, index, lock and configuration are wherever it ends or breaks off; only the delivery branch moves, or the one HEAD is on when git calls it by another name |
| GitDelivery.Repository.Recover | agent_runtime/git_delivery.py:386-418 | the handler calls a failure not committed exactly when the ref it read and both rollback commands say so; then the created branch is gone and HEAD is on the branch of the name git gave before, or detached as it was |
| GitDelivery.Repository.Attempt | agent_runtime/git_delivery.py:341-418 | for every plan of failures, target and set of names of other refs: exactly when it ends committed, when not committed and so when partial, and what HEAD and refs then are |
| GitDelivery.Repository.Deliver | agent_runtime/git_delivery.py:310-423 | onto the branch asked for, else the current one when it was generated, else the first generated name not taken; anything but not committed passed every check; committed when every command works on a free branch; not committed: index and configuration as before, HEAD as before unless a branch was created from one whose name another ref has, refs as before unless the target existed unnoticed or a commit went to a branch called by another name, exactly; committed: HEAD is at a child of the old head with the previewed tree, the index is the candidate; partial: the refs of some step; the lock is given back always |
| GitDelivery.SilentProbeLosesBranch | agent_runtime/git_delivery.py:337-340 | a run with outcome not committed in which an existing branch is deleted |
| GitDelivery.TagMovesHead | agent_runtime/git_delivery.py:404-410 | beside a tag of the branch's name, a run with outcome not committed that leaves HEAD on a branch that does not exist |
| GitDelivery.LongNameHidesCommit | agent_runtime/git_delivery.py:386-403 | a run with outcome not committed in which the branch HEAD is on got the commit |
| GitDelivery.TipNamed | agent_runtime/git_delivery.py:266-268 | after the commit git gives the target as the branch HEAD is on exactly when nothing was created or no other ref goes by its name |
| GitDelivery.ShortNameExamples | agent_runtime/git_delivery.py:266-268 | the names git gives beside tags and branches of the same or a longer name |
| GitDelivery.RolledBackExactly | agent_runtime/git_delivery.py:404-410 | what a rollback that reports itself complete leaves changed, HEAD and refs, exactly |
| GitDelivery.Repository.FreeName | agent_runtime/git_delivery.py:425-434 | the name search ends on the first generated name that is not taken, or where a probe is silent |
| GitDelivery.GeneratedNamesDiffer | agent_runtime/git_delivery.py:425-434 | different suffixes give different names |
| GitDelivery.ListChanges | agent_runtime/git_delivery.py:295-301 | the offset loop computes the listing function |
| GitDelivery.ListingReadsBack | agent_runtime/git_delivery.py:295-301 | the listing returns exactly the changes printed, origins of renames and copies skipped, whatever the paths hold |
| WorkspaceRestore.Workspace.PruneEmptyParents | agent_runtime/checkpoints.py:594-604 | the loop leaves exactly the directories that have a file below or were there for an empty directory |
| WorkspaceRestore.Workspace.WriteFile | agent_runtime/checkpoints.py:484-506 | a write is refused exactly below a file or at a nonempty directory, and then changes nothing |
| WorkspaceRestore.Workspace.RestoreTree | agent_runtime/checkpoints.py:465-507 | unless a fault comes before its last file operation it succeeds exactly when nothing unobserved is in the way; a completed edit leaves exactly the files and directories that the workspace before and the target determine; broken off anywhere, every path is as before, as the target wants it, or an observed one deleted |
| WorkspaceRestore.BlockedIsObstructed | agent_runtime/checkpoints.py:465-507 | after the deletions no observed file or directory blocks a write: only something unobserved can |
| WorkspaceRestore.Workspace.Restore | agent_runtime/checkpoints.py:548-592 | the outcome, however the observed paths change along the way: unchanged exactly when the stage matches, restored with the final stage matching and the workspace the edited one, or failed with the rollback's report and what it touched |
| WorkspaceRestore.Workspace.RollBack | agent_runtime/checkpoints.py:577-591 | what the rollback does from where the restore broke off; it reports success exactly when the stage is again the anchor |
| WorkspaceRestore.Workspace.RestoreThenUndo | agent_runtime/checkpoints.py:548-592 | the outcomes of a restore and of restoring its anchor, from which the next two rows follow |
| WorkspaceRestore.UndoGivesBack | agent_runtime/checkpoints.py:548-592 | an undo that does not fail gives back every file but the unobserved ones the target replaced |
| WorkspaceRestore.UndoSteadily | agent_runtime/checkpoints.py:548-592 | where the same kind of path is observed wherever restoring the target may lead, the undo of a completed restore cannot fail and gives back every file |
| WorkspaceRestore.CaptureDecides | agent_runtime/checkpoints.py:372-426 | stages are equal exactly when they observe the same paths and these hold the same |
| WorkspaceRestore.ChangedMeans | agent_runtime/checkpoints.py:470-475 | a path of the target is written unless it is observed and there as wanted, links without a manifest always |
| WorkspaceRestore.MaterializeMeans | agent_runtime/checkpoints.py:490-506 | content, link target and permissions that are written |
| WorkspaceRestore.ExecutableMeans | agent_runtime/checkpoints.py:422 | any execute bit makes the file executable |
| WorkspaceRestore.EditedMatches | agent_runtime/checkpoints.py:570-576 | the final comparison passes exactly when the paths then observed are the target's, historical manifests included |
| WorkspaceRestore.RestoresExactly | agent_runtime/checkpoints.py:548-592 | for any rule of observation, without a fault: restored exactly when nothing is in the way and the paths observed of the edited workspace are the target's |
| WorkspaceRestore.RollbackExactly | agent_runtime/checkpoints.py:577-591 | for any rule of observation and wherever the edit ended: exactly when a rollback without a fault reports success, and exactly when the files are those from before |
| WorkspaceRestore.ReportTrueExactly | agent_runtime/checkpoints.py:577-591 | for any rule of observation, without faults: the report is true exactly under a condition on the workspace where the edit ended, which the workspace before and the target determine when nothing is in the way |
| WorkspaceRestore.NoNewHollowComposes | agent_runtime/checkpoints.py:594-604 | directories left without files by an edit and its rollback had none before |
| WorkspaceRestore.AnchorUnobstructed | agent_runtime/checkpoints.py:577-582 | nothing stands in the way of going back, wherever the restore broke off, unless an unobserved target path is nested with an observed file |
| WorkspaceRestore.SteadyRestores | agent_runtime/checkpoints.py:548-592 | with the same kind of path observed, and without a fault: restored exactly when nothing is in the way and the whole target is observed |
| WorkspaceRestore.SteadySpares | agent_runtime/checkpoints.py:548-592 | of the unobserved files only the target's can be touched, even by a rollback |
| WorkspaceRestore.SteadyFailure | agent_runtime/checkpoints.py:577-591 | with the same kind of path observed, nothing failing and nothing in the way, over the workspace before and the target: the rollback succeeds exactly when the anchor is not obstructed, the files come back exactly when besides every unobserved target path was as the target wants it, and so when the report is true |
| WorkspaceRestore.SettledReport | agent_runtime/checkpoints.py:577-591 | whatever fails and wherever: when every unobserved target path is as the target wants it, the report is true |
| WorkspaceRestore.SteadyRollback | agent_runtime/checkpoints.py:577-591 | wherever the edit failed, a rollback without a fault succeeds unless an unobserved target path is nested with an observed file |
| RestoreLimits.RollbackMissesOverwritten | agent_runtime/checkpoints.py:570-591 | with a target path that the temporary layout now hides, the restore overwrites it, fails, and reports a complete rollback; the condition for a true report fails on it |
| RestoreLimits.RollbackDeletesUnobserved | agent_runtime/checkpoints.py:570-591 | when the target ends the temporary layout, the rollback deletes files never observed before and reports itself complete; the condition for a true report fails on it |
| RestoreLimits.LayoutStaysOff | agent_runtime/workspace.py:244-283 | without a runtime directory the target does not bring, the same kind of path is observed wherever restoring it may lead |
| RestoreLimits.RuntimeStateKeepsOff | agent_runtime/workspace.py:244-283 | likewise with a file of the runtime state |
| RestoreLimits.LayoutStaysOn | agent_runtime/workspace.py:244-283 | likewise in the layout, with a file in each runtime directory and a target that holds no runtime state |
| RestoreLimits.HiddenExamples | agent_runtime/workspace.py:252-285 | paths hidden always, hidden in the layout, and shown |
| CheckpointMessage.MetadataRoundTrip | agent_runtime/checkpoints.py:115-156 | reading the written message gives trigger, turn id and sequence back, whatever characters the turn id and the workspace path hold |
| CheckpointMessage.Written | agent_runtime/checkpoints.py:517-536 | the fixed texts of subject, body, trailer and metadata |
| CheckpointMessage.TrailersDecide | agent_runtime/checkpoints.py:115-140 | one trailer is read whatever the title says, two are corrupt, and the title counts only with none |
| CheckpointMessage.MetadataDecides | agent_runtime/checkpoints.py:124-138 | which metadata is accepted |
| CheckpointMessage.LinesSplit | agent_runtime/checkpoints.py:119-120 | lines end at every character that ends lines |
| CheckpointMessage.RecordsAre | agent_runtime/checkpoints.py:120 | the trailer lines, in order |
| CheckpointMessage.LegacyReads | agent_runtime/checkpoints.py:143-147 | the subject pattern reads every composed subject into its parts |
| CheckpointMessage.LegacyOnlyComposed | agent_runtime/checkpoints.py:143-147 | and accepts no other subject |
| CheckpointMessage.LegacyRoundTrip | agent_runtime/checkpoints.py:141-148 | without a trailer the sanitized id and the padded sequence are read back |
| Decimals.PaddedValue | agent_runtime/checkpoints.py:147-148 | zero-padding to a width and reading the digits are inverse |
| VersionedFile.RevisionCountsCommits | agent_runtime/models.py:286-325 | in any interleaving the revision grows by exactly the number of visible commits |
| VersionedFile.OneWinner | agent_runtime/models.py:286-294 | of all calls naming one version at most one becomes visible |
| SessionStore.DocumentRoundTrip | agent_runtime/models.py:348-415 | in either version the written document is read back exactly when its model and keys are sound, and is rejected otherwise |
| SessionStore.FieldsAre | agent_runtime/models.py:394-415 | the written fields: the second version exactly when there are request preferences or their revision counts |
| SessionStore.Store.Select | agent_runtime/models.py:271-325 | each outcome with its condition and its file; a visible selection is a commit over the named version, and leaves a readable file exactly when the preferences given are good |
| SessionStore.SelectionCommits | agent_runtime/models.py:271-325 | a visible selection raises the version it names by one |
| SessionStore.SelectionsRun | agent_runtime/models.py:271-325 | any interleaving of selections, by any processes, is a run of commits |
| SessionStore.SelectionsWin | agent_runtime/models.py:271-325 | so two visible selections never name one version, and the revision counts the visible ones |
| SessionStore.Store.Reconcile | agent_runtime/models.py:327-345 | done exactly when the file is the receipt's post-state and the directory confirms |
| SessionStore.Store.IssuedReceiptReconciles | agent_runtime/models.py:327-345 | for receipts a selection issues, that means the bytes are the intended ones and can be read |
| SessionStore.PaddedKeyLocksOut | agent_runtime/models.py:271-325 | a selection with a padded preference key is accepted, after which the file cannot be read |
| ControlPlane.Plane.SwitchModel | agent_runtime/models.py:780-809 | accepted exactly when the policy permits it, the file has the version in memory and the write is durable; the file keeps its preferences and memory its own, so memory agrees with the file exactly when it did before |
| ControlPlane.Plane.SwitchLocally | agent_runtime/models.py:780-809 | an unpersisted switch changes the model in memory and keeps memory fit for persisted ones |
| ControlPlane.Plane.ConfigureLocally | agent_runtime/models.py:746-778 | an unpersisted request preference changes memory alone, which no longer agrees with the version it names, by exactly that model |
| ControlPlane.Plane.Configure | agent_runtime/models.py:746-778 | what file and memory then hold, whatever memory held: preferences of other models in the file are lost exactly where memory has others, which takes one configured locally; where memory agreed only the model's own changes; the write brings memory in line |
| ControlPlane.ConfigureSpares | agent_runtime/models.py:762-778 | written from memory over the version it names, the other models' preferences are kept exactly when memory had the file's, and at most those configured locally are lost |
| ControlPlane.SwitchKeepsAhead | agent_runtime/models.py:780-809 | a persisted switch leaves memory as far ahead of the version it names as it was |
| ControlPlane.LocalPreferenceOverwrites | agent_runtime/models.py:746-809 | a local request preference, a persisted switch and a persisted request preference that overwrite the first model's preference in the file |
| ControlPlane.Plane.ReconcileSwitch | agent_runtime/models.py:811-833 | accepted exactly for the pending receipt, still permitted and reconciled; a conflict drops the receipt |
| ControlPlane.CurrentMemory | agent_runtime/models.py:746-809 | memory that agrees and names the file's version holds what the file says, but perhaps for the model |
| ControlPlane.Load | agent_runtime/models.py:1221-1276 | a model given by the caller is kept with the file's preferences or refused, and nothing is written; otherwise, whatever other processes write in between, only a choice outside the catalog is overwritten, its preferences carried over; what is kept is in the catalog, chosen by the user if it was read; it gives up over a conflict only after two foreign writes; memory agrees with the version it names |
| Registry.MergeSets | agent_runtime/model_registry.py:456-462 | every plain value of the changes is set |
| Registry.MergeKeeps | agent_runtime/model_registry.py:456-462 | everything the changes do not reach is kept |
| Registry.MergeIdempotent | agent_runtime/model_registry.py:456-462 | merging twice is merging once |
| Registry.UnsetRemoves | agent_runtime/model_registry.py:465-473 | an unset path is gone and every path apart from it kept |
| Registry.UnsetAllRemoves | agent_runtime/model_registry.py:449-452 | the same for the whole list, in any order |
| Registry.PatchDecides | agent_runtime/model_registry.py:443-453 | what validation sees at each path of a patched definition |
| Registry.PatchMeans | agent_runtime/model_registry.py:443-453 | a patch gives the replacement, or the validated definition of the rows above, or is refused |
| Registry.UnsetPathsAre | agent_runtime/model_registry.py:35-53 | which paths can be unset |
| Registry.NoNullsWithin | agent_runtime/model_registry.py:514-522 | a null is refused wherever in the changes it is |
| Registry.DocumentRoundTrip | agent_runtime/model_registry.py:403-413 | the written document is read back, revision and models, exactly when the models are valid |
| Registry.ForeignUnreadable | agent_runtime/model_registry.py:403-413 | a file with unknown keys, another version or no revision is not read |
| Registry.Store.Mutate | agent_runtime/model_registry.py:355-401 | each outcome with its exact condition; what is installed is valid and apart from the built-in ids; an unchanged result writes nothing; a visible one is a commit over the expected version |
| Registry.Store.Reconcile | agent_runtime/model_registry.py:343-353 | succeeds exactly when the file holds the receipt's bytes and these read as models of its revision, which it returns |
| Registry.MutateThenReconcile | agent_runtime/model_registry.py:343-401 | for every receipt a mutation issues, changed, unchanged or unknown: whatever others write meanwhile, reconciling succeeds exactly when the file is as the mutation left it, and returns the models it installed |
| Registry.MutationsRun | agent_runtime/model_registry.py:355-401 | any interleaving of mutations is a run of commits, so versions have one winner and the revision counts commits |
| Registry.PreviewedUpdate | agent_runtime/model_registry.py:278-330 | an update committed from a previewed snapshot commits the definition shown and changes no other; that definition is the replacement, or validated from one in which unset paths are gone, changed values set and the rest as it was; it is refused for a null or a path that cannot be unset |
| AtomicFiles.Directory.WriteTemp | agent_runtime/model_config_io.py:357-379 | while the temporary file is written, seen with each of its lengths, the target is what it was, and once it returns the bytes are on disk |
| AtomicFiles.Directory.Replace | agent_runtime/model_config_io.py:143-160 | which fault gives which result; a process crash anywhere leaves the target wholly old or wholly new; done means that only the new bytes survive a stopped machine |
| AtomicFiles.Directory.Confirm | agent_runtime/model_config_io.py:391-405 | done at the first sync, or at the second once the target was read back with its own bytes; then only they survive a stopped machine |
| AtomicFiles.Directory.Install | agent_runtime/model_config_io.py:163-178 | which fault gives which result; never overwrites; the target and the temporary name are seen linked to one file; every crash leaves a state that reconciling repairs; done survives a stopped machine |
| AtomicFiles.OldOrNewSurvives | agent_runtime/model_config_io.py:143-178 | whatever a machine stopping anywhere in a replace or install leaves is the new bytes or could have been left before: the file is synced before it is named |
| AtomicFiles.Directory.Reconcile | agent_runtime/model_config_io.py:231-274 | refuses exactly the states no install leaves; otherwise removes only the stale temporary link; inode and bytes stay, and nothing new may survive |
| AtomicFiles.TempNames | agent_runtime/model_config_io.py:245-248 | which names are temporary names of a file |
| AtomicFiles.FreshLinkHarmless | agent_runtime/model_config_io.py:357-379 | a temporary file for a new inode leaves the target reconcilable |
| TrustProtocol.InvKept | agent_runtime/model_trust.py:93-165 | every step of every initializer and unlocked reader, crashes included, keeps the invariant |
| TrustProtocol.TargetStays | agent_runtime/model_trust.py:93-115 | once installed the inode and its bytes never change |
| TrustProtocol.OneIdentity | agent_runtime/model_trust.py:93-165 | in any run all processes that finish, readers too, return one identity |
| TrustProtocol.InitializerFinishes | agent_runtime/model_trust.py:93-115 | from any reachable state with the lock free, an initializer left alone finishes, with the identity installed or else its own |
| TrustProtocol.ReaderFinishes | agent_runtime/model_trust.py:582-647 | and a reader with the content installed, after cleaning up a second link |
| TrustProtocol.FailedSync | agent_runtime/model_trust.py:615-628 | a directory that cannot be synced leaves what was done and frees the lock |
| TrustProtocol.NeverRefused | agent_runtime/model_trust.py:632-647 | no lock holder is refused over links: an interrupted install always leaves exactly one to clean |
| TrustProtocol.ReaderRejectedExactly | agent_runtime/model_trust.py:582-647 | in any run, a reader without the lock is turned away exactly when the target was linked after its look and the second link is still there at its read |
| TrustProtocol.ReaderCanBeRejected | agent_runtime/model_trust.py:582-647 | a run in which that happens |
| HostTick.Host.Tick | agent_runtime/host.py:386-431 | whatever the store hands out, whatever arrives or ends at its waits, whenever stopping is observed: before the first driver is taken 64 control commands are served, or the store has none left; each is answered, and what they leave on record is all that comes on record; bound, distinct workspaces, equal key sets and a live driver for every claim are kept; only done drivers are dropped; nothing is taken or started unless the check just before found no stop; each try at admission takes a command, and it ends only when stopping, full, out of tries or with nothing to claim |
| HostTick.Host.Control | agent_runtime/host.py:293-361 | the queue after each control command, and exactly which drivers and which descendant sessions it interrupts |
| HostQueue.RejectStarts | agent_runtime/host.py:314-317 | the loop rejects exactly the queued starts of the turn |
| HostQueue.ControlDecides | agent_runtime/host.py:293-341 | what each control command does to the queue, case by case: cancelling a live, a finished or a never begun turn, input to a turn, and errors |
| HostQueue.CancellationReaches | agent_runtime/host.py:342-359 | a cancellation that takes effect interrupts exactly the drivers of its turn and the sessions that run it |
| HostQueue.ReachedMeans | agent_runtime/host.py:350-359 | those sessions are the live ones and their descendants at any depth with an unfinished task for the turn |
| HostQueue.ControlGivesUp | agent_runtime/host.py:293-341 | no control command claims anything, and each gives its own claim up |
| HostQueue.InterruptChildren | agent_runtime/host.py:350-359 | the worklist over live sessions ends and reaches exactly the descendants that run the turn |
| HostTick.Host.StopAdmission | agent_runtime/host.py:377-384 | stopping gives the claim in hand back and is obeyed from there on |
| HostTick.Host.AdmitClaim | agent_runtime/host.py:421-431 | a claim gets a driver exactly when no stop is seen and its workspace is free, else it is pending again |
| HostTick.Host.Finish | agent_runtime/host.py:101-291 | each way a driver ends settles its claim as the source does: applied, pending, rejected or blocked, and none leaves its command claimed |
| Lineage.FindSubmission | agent_runtime/harness/host_ops.py:274-286 | finds the nearest ancestor with a start, on any edges, or shows there is none |
| Lineage.SubmissionUnique | agent_runtime/harness/host_ops.py:274-286 | the nearest submission is one |
| Lineage.ReachesMeans | agent_runtime/background.py:172-192 | the chain as a list of turns, each edge with its recorded ends and an environment that names the parent, its root and the child's workspace |
| Lineage.Handle.Walk | agent_runtime/background.py:172-192 | the walk ends on any edges, cycles included; it authorizes exactly when a chain of recorded edges, each with its environment, leads to a turn in the caller's workspace, and misses exactly when the chain comes to an edge with an end not on record |
| Lineage.Handle.Authorize | agent_runtime/background.py:157-192 | thread checks and walk together, each verdict with its condition; the handle is rebound exactly on success |
| Chains.CycleCovers | agent_runtime/background.py:175-177 | everything on a closing chain is met before it closes |
| DailyBudget.Budget.Reserve | agent_runtime/server_model_gateway.py:110-123 | accepts exactly when the whole accepted history leaves room that day and the clock is not behind it |
| DailyBudget.LimitsHold | agent_runtime/server_model_gateway.py:110-123 | no day exceeds either limit, whatever the clock did |
| DailyBudget.RowSuffices | agent_runtime/server_model_gateway.py:114-118 | one row stands for the whole history |
| SectionWindows.Split | generate_eval_dataset.py:240-302 | the loop emits exactly the specified windows, for any parameters |
| SectionWindows.PositionsIsCeiling | generate_eval_dataset.py:265-302 | the loop visits ceil((n - overlap) / step) positions |
| SectionWindows.StartIsMultiple | generate_eval_dataset.py:300 | windows start at multiples of the step |
| SectionWindows.OverlapExact | generate_eval_dataset.py:267-300 | neighbouring windows share exactly the overlap, the last two included |
| SectionWindows.CoveredExactly | generate_eval_dataset.py:265-302 | the tokens in some window are exactly those before the lost tail |
| SectionWindows.LostIsShort | generate_eval_dataset.py:276-298 | the tail is shorter than least - overlap, and empty when least <= overlap + 1 |
| PromptHistory.History.Append | agent_runtime/terminal_input.py:169-185 | storage stays the longest fitting suffix of everything accepted, the counter its size, the loaded view its reverse |
| PromptHistory.LongestIsLongest | agent_runtime/terminal_input.py:178-185 | no longer suffix fits both bounds |
| PromptHistory.LongestOfAppend | agent_runtime/terminal_input.py:174-185 | evicting as one goes equals evicting from the whole history |

## Left out

- Path strings: a path is its components; `~`, NUL bytes and string spelling are not modelled, ".." only in declared paths.
- Aliases by case, Unicode normalisation or `samefile`: they enter as arbitrary relations of the `World`; the sandbox, guard and exact relocation theorems take the symlink-free prefix reading.
- Tool patterns: the wildcard matcher is an arbitrary predicate.
- Case folding of path components is exact only where it can produce a metadata name.
- Sorting of sandbox rules, guard directories, deletions and writes: any order is covered.
- Digests are the value they digest, so collisions do not exist.
- Validation of policy files, discovery of user and managed policies, and the error texts of refusals.
- GitDelivery.Repository.Deliver: no other process moves refs or takes the index while it runs; `core.warnAmbiguousRefs` has its default; interrupts inside the handler, a failing cleanup of the temporary directory after success, and refs that conflict as directory and file beyond a failing `branch` are not modelled.
- Pushing, pull requests and the base lookup of git delivery.
- WorkspaceRestore.Workspace.RestoreTree: a fault falls between file operations, each of which happens wholly or not at all; unsupported file types and changes during capture are errors before any edit and are not modelled.
- WorkspaceRestore.Workspace.RestoreThenUndo: gives files back; an empty directory that a target file replaced is not recreated.
- RestoreLimits.LayoutStaysOn: links are files to it; a link to a directory that has an ignored name or stands for a runtime directory is not modelled.
- Checkpoint listing, retention, refs and the snapshot's decision to reuse a commit.
- CheckpointMessage.MetadataRoundTrip: the workspace path is UTF-8 text; timestamps and ids of the entry are not modelled.
- Duplicate JSON keys, floats and size limits of the libraries.
- ControlPlane.Plane.SwitchModel: model definitions, credentials and frozen bindings are not modelled; without a store a persisted call is the local one.
- ControlPlane.Plane.ConfigureLocally: the session's own record of its settings, and putting memory back when that cannot be written, is not modelled.
- Registry add and remove, which are single map edits under the same `Mutate`.
- The definition archive, which runs the protocol of `TrustProtocol` with content fixed by its file name.
- Making directories durable, lock files and their permission checks.
- TrustProtocol.OneIdentity: key bytes and their parsing are the file's content; a file that does not parse, or has the wrong mode or owner, is not modelled.
- The channel lane, leases, heartbeats and revoked channel authority of the host; a claim is held until it is settled.
- HostTick.Host.Finish: which of the endings a driver reaches, decided by its permissions, configuration and recovery plan, is not modelled.
- The gateway's count of active relays, one increment and one decrement.
- Surrogate code points in prompt strings.
