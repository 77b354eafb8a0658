# dhnt: pipelines, the task runner and its evidence

A verified model of the `dhnt` package and of the account provisioner of the Matrix example.

A **pipeline** lists tasks, what each needs, and a matrix of platform rows with the artifacts each row
consumes and produces. A pipeline is validated, brought into a canonical form, and lowered to an Argo
workflow. Each workflow step runs the **task runner**: it checks what is already there, stages outputs, runs
the task's command, seals and re-hashes what the command left, publishes the outputs one by one, links a
commit manifest last and writes an evidence record. The **aggregator** compares evidence with the matrix. The
**account provisioner** keeps a vault and a homeserver in agreement on account passwords while calls fail.

## How it is built

| files | what they hold |
|---|---|
| `Order`, `Paths`, `Acyclic` | sorting by key, slash paths and path antichains, the three-colour cycle search |
| `Contract`, `Pipelines`, `Canonical`, `Evidence` | pipeline and run validation, canonical forms, aggregation |
| `TreeDigest`, `StrictJson`, `Surrogates`, `ShellQuote` | byte encodings and scanners |
| `RunnerSpecs`, `FileSystem`, `Workspaces` | runner specs; a disk of names, inodes and bytes; the system calls made on it |
| `RunStates`, `ChildEnvironment`, `Preparation`, `Children`, `Snapshots`, `Publication`, `Records`, `Runner`, `Campaigns` | the runner, step by step, and any number of runs in a row |
| `Argo`, `ArgoMeaning`, `MixedLanes`, `MixedTemplates`, `MixedArgo`, `MixedWorkflows`, `MixedMeaning`, `UnfedPipeline` | the two lowerers and what their workflows mean |
| `AccountProvisioner` | the vault, the homeserver and the provisioner between them |

`dafny verify dfyconfig.toml` checks the whole project.

**The disk.** Names map to directories or inodes, inodes map to bytes, so a hard link shares an inode and a
rename moves a whole subtree. `Workspaces.Workspace` records every state the disk has been in, in the field
`history`; a run that is stopped between two steps leaves one of these states behind. A `Machine` says which
system calls fail and how much of a write reaches the disk first; the theorems hold for every machine unless
they say `Healthy`. The child is an arbitrary function from the disk it is started on to the states it passes
through and its exit, so it may write anywhere, also through hard links, until its process group is stopped.
A workspace also carries the ghost set `reserved`: names other runs will use. It may be empty, and then it asks for
nothing (`Campaigns.Unreserved`); otherwise every step of the run leaves these names free, in every state.

**Names used in the table.** `OutputsMatch`, `InputsMatch`: every declared path holds content with its declared
digest. `ManifestExact`: the manifest path holds exactly the canonical bytes. `Complete`: all three. `Resumable`:
inputs match, the working directory's name is there, each output path and the manifest path is either free and
reachable or already right, and neither staging nor the evidence directory is blocked. `Seated`: what is at the
working directory's name is a directory, so a command can be started in it. `Retryable`: both. `HonestTrace`: in
every state from some point on, if this run linked the manifest then all outputs match and the manifest is exact, and
any evidence this run published is a valid record at its path which, when it says pass, stands beside a complete
workspace. `Tame`: a child that writes only to its staged outputs, its home and its temporary directory.

## Results that differ from what a reader might expect

* The provisioner's agreement survives any single failure, not any two. `Provisioner.Reset` gives the exact
  condition on the outcome of the calls, `SingleFailure` shows that one failure always meets it, and
  `TwoFailures` serves one reset request whose change lands while the reply is lost and the probe fails, after which
  the vault is rolled back to a dead password.
* A lowered workflow has the pipeline's schedules if and only if no task is named `pipeline`; with such a task
  the entry template is ambiguous and the workflow admits no schedule at all (`ArgoMeaning.LoweringMeaning`).
* A spec with two inputs or two outputs whose names differ only in punctuation or case is valid but can never
  pass: the child's variables collide. `ChildEnvironment.NamesCollide` gives a valid spec of this kind,
  `ChildEnvironment.ChildVariables` states when exactly.
* A spec whose working directory is also one of its file inputs passes validation and the path check, but no command can
  be started in a file: every run that gets that far ends in an infrastructure failure with exit code 127.
  `ChildEnvironment.SeatIsInput` gives a valid spec of this kind, `Campaigns.NeverSeated` shows that no disk with its
  inputs in place can run it, and `Runner.ExecuteTask` that no run records a pass. `Campaigns.Retry` puts both
  together: a retry passes if and only if the variables do not collide and the working directory is a directory.
* The mixed lowerer takes an input from the task that produces it without asking whether that task is among the
  consumer's needs. A mixed workflow has the pipeline's schedules if and only if no task is named `pipeline`, none bears
  the name of a native task followed by `-create` or `-collect`, and the pipeline is `Fed`: every task reaches the
  producers of its inputs through needs, and none of these producers is native, since native tasks declare no output
  artifacts in the workflow (`MixedMeaning.MixedLoweringMeaning`). It can run to the end if and only if names do not
  clash, no tasks wait for each other in a circle of needs and inputs, and no native task produces an input
  (`MixedMeaning.RunsToTheEnd`). `UnfedPipeline.UnfedAccepted` gives a valid pipeline that is accepted and cannot.
* The environment of a native job is not checked for collisions: two inputs that are spelled alike there share their
  variables (`MixedTemplates.JobVariablesApart` states when exactly).
* In the surrogate scanner, the branch that looks back for a high surrogate is never taken on well-formed JSON
  (`Surrogates.ValidateSurrogates`).
* Two output lists that differ may only share a commit when the manifest encoder or the hash collides
  (`Evidence.CommitExact`).

## Model

| member | source | states |
|---|---|---|
| `Runner.ExecuteTask` | dhnt/runner.go:39-252 | over every state of a run, for any child and any failing calls: a linked manifest implies all outputs match and the manifest is exact; a pass record implies a complete workspace, inputs that matched when the child started and after it, and a child that exited 0 with every output staged as declared, also after staging is removed; tame children keep a retryable workspace retryable throughout; a rejected request changes nothing; a child is started only where the working directory is a directory, and a run that starts none leaves every artifact alone in every state; a spec whose variables collide, or a file for a working directory, never records a pass; without failures a fresh run ends in exactly the report the child earned, or in 127 (130 if cancelled) when no child can be started |
| `Runner.RunTask` | dhnt/runner.go:80-252 | the same from the path check on: a failed path check is reported as an infrastructure failure, a failed staging directory as no evidence at all, an unusable working directory as a child that was not started |
| `Runner.StagedTask` | dhnt/runner.go:87-252 | the same for the stage just created; removing the stage at the end keeps every published file, since links outlive the staged names |
| `Runner.RunStaged` | dhnt/runner.go:89-252 | preparation, child and publication together: pass only if the workspace is complete, the inputs matched when the child started, it started in a directory and it passed; a stopped child decides the report alone; a child that was not started leaves a quiet trace and, without failures, is reported exactly when the working directory is a file |
| `Runner.RunAndPublish` | dhnt/runner.go:136-252 | the report is the one the child's exit and staged outputs call for when nothing fails and the child could be started; if it could not, nothing on disk changes and the report says so; a stop verdict never publishes; commit safety in every state |
| `Runner.PublishRun` | dhnt/runner.go:179-251 | from sealing to the manifest link: success means every staged output was right and the workspace is complete; without failures success happens exactly when every output was staged as declared |
| `Runner.PrepareRun` | dhnt/runner.go:89-138 | going on means every output and the manifest were found absent or right and every input matched; nothing but directories was added, none of them at or below an artifact path |
| `Runner.Finish` | dhnt/runner.go:68-78 | publishing a report keeps the workspace quiet and every state honest; a finished run recorded exactly the run it returns |
| `Runner.RecordValid` | dhnt/runner.go:254-269 | every record the runner builds passes run validation, for any accepted spec, node and pod, while the clock does not run backwards |
| `Runner.CreateStaging` | dhnt/runner.go:279-299 | the new stage is empty, fresh and not above the working directory; nothing of the spec changes |
| `Runner.CheckWorkspacePaths` | dhnt/runner.go:301-322 | without failures, accepted if and only if the working directory and all inputs are there and no path to be written runs through a file |
| `Workspaces.Workspace.CheckPath` | dhnt/runner.go:324-354 | without failures, accepted if and only if no proper ancestor is a file and the path is there or may be missing |
| `Campaigns.Attempts` | dhnt/runner.go:39-252 | after any number of runs of one spec, each with its own tame child and failures and each stopped after any step, the next run can resume: inputs match, outputs and manifest are free or right, what is at the working directory is of the kind it was, and every name reserved for others is still free |
| `Campaigns.Retry` | dhnt/runner.go:89-153 | from a resumable disk without the last run's names, after any such history of other pods, a run without failures whose child is correct on disks where the inputs match ends in pass if and only if the child's variables do not collide and the working directory is a directory; a pass leaves the workspace complete; a file for a working directory ends in 127 |
| `Campaigns.NeverSeated` | dhnt/runner.go:139-153 | there is a valid spec with non-colliding variables such that on every disk with its inputs in place the working directory is a file; by a clause of Runner.ExecuteTask no run of it there ever records a pass |
| `ChildEnvironment.NamesCollide` | dhnt/argo.go:573-583 | there is a spec that validation accepts and whose child's variables collide; by a clause of Runner.ExecuteTask no run of it ever records a pass |
| `ChildEnvironment.SeatIsInput` | dhnt/runner_spec.go:77-170 | validation never compares the working directory with the artifacts: it accepts a spec whose working directory is a file input |
| `Campaigns.OtherPods` | dhnt/runner.go:279-299 | runs of different pods share no staging, evidence or temporary name, whatever their random parts |
| `Campaigns.StrangerConsiderate` | dhnt/runner.go:745-750 | so a run of one pod never takes a name of another |
| `Campaigns.CorrectPasses` | dhnt/runner.go:145-252 | a child that is correct on retryable disks, where all inputs match, and that is not cancelled earns a pass report on such a disk |
| `RunnerSpecs.ValidLayout` | dhnt/runner_spec.go:112-170 | in a valid spec no artifact path, manifest path or evidence directory lies inside another or inside staging, and staging lies inside none of them |
| `Preparation.VerifyExistingDestination` | dhnt/runner.go:645-658 | success tells whether the output is there and, if so, that it matches; without failures a fine output is never refused |
| `Preparation.VerifyExistingManifest` | dhnt/runner.go:660-683 | success tells whether the manifest is there and, if so, that it holds exactly the canonical bytes |
| `Preparation.VerifyInputs` | dhnt/runner.go:121-126 | success means every input matches; without failures matching inputs are never refused |
| `Preparation.EnsureParent` | dhnt/runner.go:696-708 | the parent exists afterwards, no artifact, staging or evidence entry changed, and without failures it only fails if a file is in the way |
| `Preparation.EnsureEvidenceDirectory` | dhnt/runner.go:766-784 | the same for the evidence directory |
| `Preparation.PrepareOutputs` | dhnt/runner.go:89-99 | afterwards the table of existing outputs is true of the disk: listed ones are there and match, the others are absent, and each parent exists |
| `Preparation.PrepareDestinations` | dhnt/runner.go:89-126 | outputs, manifest, evidence name and inputs have all been checked, in that order, with nothing of the spec changed |
| `Preparation.PrepareStage` | dhnt/runner.go:128-138 | the child gets its own place per output under the stage, the variables naming those places, and an empty home; fails if variables collide |
| `ChildEnvironment.ChildVariables` | dhnt/runner.go:593-643 | succeeds if and only if artifact names stay distinct as variable names on each side; then every artifact's path and digest variable and every declared and fixed variable keeps its own value, none overwritten by another |
| `ChildEnvironment.BindArtifacts` | dhnt/runner.go:615-632 | one side of that loop: refused exactly on a name collision, and no variable of the other side is touched |
| `Children.Launch` | dhnt/runner.go:139-155 | whatever the child does, the run's flags and the history before it stay; a tame child leaves every artifact, the manifest and old evidence as they were |
| `Children.RunChild` | dhnt/runner.go:139-177 | the child is started only if the working directory is a directory, and without failures or earlier cancellation whenever it is; otherwise nothing on disk changes and the result is 127, or 130 if cancelled; the run proceeds only if the child was started, exited 0, was not cancelled, and the inputs still match afterwards; every other case yields a valid stop result |
| `Children.Judge` | dhnt/runner.go:156-177 | cancellation and signals, then nonzero exits, then changed inputs: the verdict is the first that applies, with a valid result and exit code |
| `Snapshots.CopyTree` | dhnt/runner.go:464-548 | a successful copy mirrors the source: same names, same kinds, same bytes; the source is untouched; a copy whose directory could not be made leaves the disk as it was |
| `Snapshots.SnapshotTree` | dhnt/runner.go:464-548 | the digest returned is both the source's before and the copy's after; without failures a hashable source always yields it, and a snapshot that fails, be it in copying or in hashing, leaves nothing at a target that was free |
| `Snapshots.SnapshotFile` | dhnt/runner.go:550-591 | the same for a file |
| `Snapshots.Snapshot` | dhnt/runner.go:453-462 | the same for either kind; only the target changes in any intermediate state |
| `Publication.Seal` | dhnt/runner.go:179-191 | success means every staged output had its declared digest and a private sealed copy of each still has; without failures the result is incomplete exactly when some staged output is wrong |
| `Publication.PublishOne` | dhnt/runner.go:192-222 | success means the output matches at its path; every intermediate state has the output absent or right, also when an output appeared meanwhile and is taken away |
| `Publication.Publish` | dhnt/runner.go:192-222 | success means all outputs match; only output paths and their sealed copies changed; retryable in every intermediate state |
| `Publication.LinkManifest` | dhnt/runner.go:227-246 | the manifest appears only while all outputs match, with exactly the canonical bytes, in one step |
| `Publication.CommitOutputs` | dhnt/runner.go:223-246 | in every state: if this run's manifest is linked, all outputs match and the manifest is exact; inputs are untouched |
| `Records.PublishEvidence` | dhnt/runner.go:737-764 | the record appears in one step with exactly the canonical run bytes, never replaces another, and every state before and after is honest |
| `Records.WriteRecord` | dhnt/runner.go:742-764 | only the evidence file and its temporary name ever change, an evidence file already there never; the record, once published, holds exactly the run's bytes; without failures it succeeds whenever both names are free |
| `RunStates.Pad3Injective` | dhnt/runner.go:132 | staged output directories of different outputs never coincide, however many there are |
| `RunStates.QuietRetryable` | dhnt/runner.go:89-107 | a step that changes no artifact, no manifest and nothing on the way to them, and keeps the working directory of its kind, keeps a workspace retryable |
| `FileSystem.MoveTreeKeeps` | dhnt/runner.go:211-214 | renaming a sealed tree moves the whole subtree, byte for byte, and changes nothing else |
| `FileSystem.AddLinkKeeps` | dhnt/runner.go:207-210 | a link makes the same file appear at a second name and changes nothing else |
| `Workspaces.Workspace.WriteSealed` | dhnt/runner.go:710-725 | success leaves exactly the given bytes at a new name; an existing name is never overwritten |
| `Workspaces.Workspace.MkdirAll` | dhnt/runner.go:704-706 | only missing directories on the way appear; without failures it succeeds unless a file is in the way |
| `Workspaces.Workspace.RemoveAll` | dhnt/runner.go:87 | removing the stage changes no name outside it and no bytes on disk; without failures the stage is gone |
| `RunnerSpecs.Validate` | dhnt/runner_spec.go:77-170 | accepts exactly the specs whose fields are well formed, whose artifacts are portable and named once per side, and whose paths are all distinct with none inside another |
| `RunnerSpecs.ValidateSide` | dhnt/runner_spec.go:128-165 | one side: accepted exactly when its artifacts are valid, distinct in name and path, and clear of all paths taken so far |
| `Paths.CleanRelativeExact` | dhnt/argo.go:589-593 | accepted exactly when there is no backslash and no NUL and no segment between slashes is empty, `.` or `..` |
| `Paths.CleanNamesExact` | dhnt/artifact.go:139-153 | the lexical part of tree path validation accepts exactly the same, NUL apart |
| `Paths.WithinIffPrefix` | dhnt/runner_spec.go:216-218 | on clean paths, being within is being an extension segment by segment |
| `Paths.ReservedIffPrefix` | dhnt/runner_spec.go:220-222 | reserved paths are exactly those whose first segment is the staging directory |
| `Paths.RejectPathAliases` | dhnt/runner_spec.go:199-214 | accepts if and only if no path lies within another |
| `Paths.AliasFreeIffLeaves` | dhnt/runner_spec.go:199-218 | on clean paths that is the case if and only if all of them can be leaves of one directory tree |
| `Acyclic.ValidateAcyclic` | dhnt/contract.go:1020-1045 | for every iteration order: terminates, accepts if and only if no task reaches itself through needs, and then the order in which it finishes tasks is a topological order of all of them |
| `Acyclic.Visit` | dhnt/contract.go:1023-1038 | a visit that fails has found a real cycle; one that succeeds finishes its task and leaves the tasks on the stack exactly as it found them |
| `Acyclic.ScheduleExtends` | dhnt/contract.go:1020-1045 | on an acyclic graph every partial schedule extends to one that runs every task |
| `Acyclic.ReachedBefore` | dhnt/contract.go:1020-1045 | a schedule has run all that a task reaches before it runs the task |
| `Acyclic.JustBefore` | dhnt/contract.go:1020-1045 | on an acyclic graph any task can be run right after the tasks it reaches and no others |
| `Acyclic.ScheduledIsAcyclic` | dhnt/contract.go:1020-1045 | a graph whose tasks can all be scheduled has no cycle |
| `Contract.ValidateTask` | dhnt/contract.go:841-909 | accepts exactly the well-formed tasks |
| `Contract.ValidateUniqueStrings` | dhnt/contract.go:1006-1018 | accepts exactly lists of valid, pairwise different ids |
| `Contract.ValidateEnvironment` | dhnt/contract.go:892-907 | accepts exactly lists of valid variables with pairwise different names |
| `Contract.ValidateArtifacts` | dhnt/contract.go:940-979 | accepts exactly lists of valid artifacts with pairwise different names, empty only where allowed |
| `Contract.ValidateReduceCoverage` | dhnt/contract.go:320-360 | for every iteration order: accepts if and only if each shard's reducer is a task needing it, shards of one reducer share count and manifest and never an index, and every index up to the count is taken |
| `Contract.ShardBijection` | dhnt/contract.go:320-360 | where shards are covered and chunks valid, a reducer has as many shards as its count, in one-to-one correspondence with 1..count, all under one manifest and all among its needs |
| `Pipelines.ShardCover` | dhnt/contract.go:251-288 | in every valid v2 pipeline the shards of a reducer are as many as their common count, carry each index from 1 to it exactly once under one manifest, and are all needs of the reducer |
| `Contract.MatrixKeyInjective` | dhnt/contract.go:1047-1049 | on valid ids and platforms two rows share a key only if they name the same task and platform |
| `Pipelines.Validate` | dhnt/contract.go:186-292 | accepts exactly the valid pipelines: tasks, needs, no cycle, matrix, shard coverage |
| `Pipelines.ValidateTasks` | dhnt/contract.go:201-220 | accepts exactly lists of valid tasks with different ids, and returns the table of them |
| `Pipelines.ValidateNeeds` | dhnt/contract.go:221-230 | accepts if and only if every need is a known task other than the one that has it |
| `Pipelines.ValidateMatrix` | dhnt/contract.go:234-285 | accepts exactly the matrices whose rows are valid, distinct by task and platform and agree on chunks, with a row for each task; returns the chunk of each shard |
| `Canonical.CanonicalPipeline` | dhnt/contract.go:784-805 | computes the canonical form the lemmas below speak of |
| `Canonical.CanonicalExact` | dhnt/contract.go:784-805 | two valid pipelines have the same canonical form if and only if they differ only in the order of tasks, needs, environment, rows and artifacts |
| `Canonical.CanonicalValid` | dhnt/contract.go:784-805 | the canonical form of a valid pipeline is valid |
| `Canonical.CanonicalIdempotent` | dhnt/contract.go:784-805 | it differs from the pipeline in order only, and canonicalising again changes nothing |
| `Order.SortByCanonical` | dhnt/contract.go:813-823 | sorting by a distinct key gives one representative per multiset |
| `Evidence.ValidateRun` | dhnt/contract.go:362-444 | accepts exactly the valid runs |
| `Evidence.ValidateOutputCommit` | dhnt/output_commit.go:56-77 | accepts exactly the commit of the outputs' canonical manifest |
| `Evidence.CommitExact` | dhnt/output_commit.go:30-54 | reordering outputs never changes the commit, and different outputs share one only by a collision of the encoder or of the hash |
| `Evidence.EqualArtifacts` | dhnt/aggregate.go:114-126 | lists with distinct names are equal exactly when they hold the same artifacts, in any order |
| `Evidence.Aggregate` | dhnt/aggregate.go:18-92 | succeeds if and only if the pipeline is valid and runs and rows correspond one to one by task and platform, every run valid, passed, with the row's artifacts and its own id; lists the run ids sorted |
| `Evidence.MatchIsCorrespondence` | dhnt/aggregate.go:26-84 | what the loops check, keyed by task and platform, is exactly that one-to-one correspondence |
| `Evidence.AggregateOrderFree` | dhnt/aggregate.go:33-91 | verdict and result do not depend on the order of runs |
| `TreeDigest.CanonicalTreeDigest` | dhnt/artifact.go:155-177 | succeeds exactly on valid paths without duplicates, and then hashes the canonical bytes |
| `TreeDigest.CanonicalBytesExact` | dhnt/artifact.go:155-177 | two valid lists hash the same bytes if and only if they hold the same entries |
| `TreeDigest.EncodingInjective` | dhnt/artifact.go:168-175 | the length-prefixed encoding determines the list of entries, for fewer than 2^64 entries and path bytes |
| `TreeDigest.WordInjective` | dhnt/artifact.go:179-183 | different 64-bit lengths are written as different big-endian words |
| `TreeDigest.NoDuplicates` | dhnt/artifact.go:162-167 | on sorted entries comparing neighbours finds every duplicate path |
| `StrictJson.ValidateToken` | dhnt/contract.go:597-629 | on the tokens of any well-formed value: accepts if and only if every struct-typed object has known keys only, none twice and all required ones, and no null stands at a non-pointer type; consumes exactly that value |
| `StrictJson.ValidateObject` | dhnt/contract.go:631-664 | the same for the fields of one object up to its closing brace |
| `StrictJson.ValidateArray` | dhnt/contract.go:666-676 | the same for the elements of one array up to its closing bracket |
| `StrictJson.SkipDelim` | dhnt/contract.go:678-694 | counting one kind of bracket, it stops right after the matching delimiter |
| `StrictJson.ValidateKeys` | dhnt/contract.go:511-528 | accepts if and only if the value is acceptable at the pointed-to type and nothing follows it |
| `StrictJson.TokensBalanced` | dhnt/contract.go:678-694 | every value's tokens are balanced in each kind of bracket separately |
| `StrictJson.TokensPrefixFree` | dhnt/contract.go:597-629 | a token stream starts with the tokens of at most one value |
| `Surrogates.ValidateSurrogates` | dhnt/contract.go:530-579 | never reads outside the bytes, whatever they are; on well-formed JSON text accepts if and only if every surrogate escape is half of a high-low pair, and never takes the look-back branch |
| `Surrogates.ScanStep` | dhnt/contract.go:532-576 | one turn of the scan stays inside the bytes and moves forward |
| `Surrogates.StepSound` | dhnt/contract.go:532-576 | on well-formed text a step keeps the scan at an escape boundary with everything before it paired, and rejects only unpaired text |
| `Surrogates.LooksBack` | dhnt/contract.go:561-574 | a backslash-u six bytes back after an even run of backslashes is the escape just before |
| `Surrogates.ParseHex4` | dhnt/contract.go:581-595 | the value of four hexadecimal digits, most significant first |
| `ShellQuote.QuoteRoundTrip` | dhnt/mixed_argo.go:851-853 | a quoted NUL-free string lexes to exactly one word, the string itself (sections 2.2.2 and 2.2.3 of the Shell Command Language of IEEE Std 1003.1) |
| `ShellQuote.LexQuoted` | dhnt/mixed_argo.go:851-853 | quoting is closed: whatever follows is lexed as if the word alone had been read |
| `ShellQuote.LineRoundTrip` | dhnt/mixed_argo.go:851-853 | quoted arguments separated by blanks lex back to the same arguments |
| `Argo.LowerV2` | dhnt/argo.go:200-356 | succeeds if and only if names, lanes, bindings and platforms fit, every task's runner spec is valid, any two tasks share a path only for the same artifact, and no path lies within another; then yields the lowered workflow |
| `Argo.LowerTasks` | dhnt/argo.go:244-341 | the loop: succeeds exactly when every task lowers and every two runner specs are compatible |
| `Argo.LowerTask` | dhnt/argo.go:245-340 | one task: accepted exactly when it can run there, its binding names exactly its artifacts, its paths fit those claimed so far and its spec is valid |
| `Argo.ClaimSpec` | dhnt/argo.go:267-292 | accepted exactly when no path is claimed for something else; afterwards every path of the spec is claimed for what the spec puts there |
| `Argo.FitsIffCompatible` | dhnt/argo.go:267-292 | checking against the claims so far is checking against each earlier task separately |
| `Argo.SpecForTask` | dhnt/argo.go:358-416 | succeeds exactly when no artifact is both input and output and the binding names exactly the row's artifacts |
| `Argo.SpecCommutes` | dhnt/argo.go:358-416 | building the runner spec and canonicalising commute |
| `Argo.MarshalSpec` | dhnt/runner_spec.go:65-75 | encodes exactly the valid specs, in canonical order |
| `Argo.SameValid` | dhnt/runner_spec.go:65-75 | reordering environment, inputs or outputs never changes a spec's validity |
| `ArgoMeaning.LoweringMeaning` | dhnt/argo.go:200-356 | without a task named like the entry template, a workflow and its pipeline admit the same task schedules; with one the workflow admits none |
| `ArgoMeaning.PartialRunsExtend` | dhnt/argo.go:244-345 | every partial schedule of a lowered workflow extends to one that runs all tasks |
| `ArgoMeaning.OwnContainer` | dhnt/argo.go:297-340 | each task resolves to its own container, which ends with the task's own arguments |
| `ArgoMeaning.EntryResolves` | dhnt/argo.go:234-243 | the entry template is unambiguous if and only if no task is named like it |
| `ArgoMeaning.LoweringOrderFree` | dhnt/argo.go:241-345 | verdict and workflow are unchanged by reordering tasks, needs, environment, rows, artifacts or bindings |
| `MixedArgo.LowerMixed` | dhnt/mixed_argo.go:265-445 | succeeds if and only if the name fits, the plan is for this pipeline, each task has one row and a binding of exactly its artifacts, suits its lane and its worker's node, the plan fits and names exactly the resolved workers, no path means two things or lies within another, every input has one source and native bindings are for native tasks; then placement and wiring are sound, and dag and templates are those of the sorted tasks |
| `MixedArgo.WiringCovers` | dhnt/mixed_argo.go:401-414 | every input of every task gets exactly one source: the one task that produces it, never the consumer itself, or a repository key for what nobody produces |
| `MixedArgo.InitialExact` | dhnt/mixed_argo.go:438-445 | the initial artifacts are exactly the inputs no task produces |
| `MixedArgo.Wire` | dhnt/mixed_argo.go:357-445 | succeeds if and only if outputs have unique producers, every input has a source and no initial artifact is produced or unused |
| `MixedArgo.WireTask` | dhnt/mixed_argo.go:401-414 | one task: succeeds exactly when each input has a source, and reports the keys used |
| `MixedArgo.ArtifactProducers` | dhnt/mixed_argo.go:553-566 | succeeds exactly when no artifact is produced twice, and maps each to its producer |
| `MixedArgo.IdentityInjective` | dhnt/mixed_argo.go:557 | two valid artifacts share an identity only if name and digest agree |
| `MixedArgo.MixedAssignments` | dhnt/mixed_argo.go:467-551 | accepts exactly the plans that place each native, shardable or placed task once and nothing else, with matching chunks, required indexes and membership digests |
| `MixedArgo.PlaceCohorts` | dhnt/mixed_argo.go:478-499 | the cohort loop: accepted exactly when each cohort is allowed, has one worker and no task is placed twice |
| `MixedArgo.PlaceReduction` | dhnt/mixed_argo.go:500-538 | one reduction: accepted exactly when each chunk is the shard it names, the required indexes are the chunk indexes in ascending order, the membership digest agrees and no shard is placed twice |
| `MixedArgo.SortIntsExact` | dhnt/mixed_argo.go:531-534 | a list is the sorted form of another if and only if it ascends and holds the same numbers as often |
| `MixedArgo.CheckTasks` | dhnt/mixed_argo.go:370-437 | the loop but for the wiring: succeeds exactly when every task is bound, suits its lane and runs on a node that suits it; then it has the templates of every task in order |
| `MixedArgo.BareIsIdentity` | dhnt/mixed_argo.go:380-385 | two artifacts claim a path for the same thing exactly when their identity strings agree |
| `MixedLanes.CheckLane` | dhnt/mixed_argo.go:416-436 | the lane switch: a cluster task needs k3s on linux and a valid runner spec, a native task its own binding with one file output, no retry, the same deadline and a URL for exactly its inputs, and both a known accelerator |
| `MixedLanes.CheckUrls` | dhnt/mixed_argo.go:653-671 | accepted if and only if the URLs name exactly the inputs |
| `MixedLanes.ClaimAll` | dhnt/mixed_argo.go:380-397 | with the final alias check: accepted if and only if no path is claimed for two things, within one task or between two, and none lies within another |
| `MixedArgo.PlacementTotal` | dhnt/mixed_argo.go:539-550 | every task that must be placed has exactly one worker; a shard's comes from its own reducer at its own chunk index and manifest |
| `MixedArgo.CoverWorkers` | dhnt/mixed_argo.go:315-322 | the coverage check passes if and only if the workers used are exactly the workers resolved |
| `MixedArgo.NodesApart` | dhnt/mixed_argo.go:202-217 | different workers run on different nodes |
| `MixedMeaning.MixedRunsExact` | dhnt/mixed_argo.go:366-454 | a mixed workflow can run a schedule if and only if no names clash, the pipeline admits the schedule, and in it every producer of an input comes before the consumer and is not native |
| `MixedMeaning.MixedLoweringMeaning` | dhnt/mixed_argo.go:366-454 | workflow and pipeline admit the same schedules if and only if no task is named like the entry template or like a native task's create or collect template, every consumer reaches the producers of its inputs through needs, and no native task produces an input |
| `MixedMeaning.UnfedSchedule` | dhnt/mixed_argo.go:401-414 | otherwise there is an admitted schedule that is no run: the consumer right after its own ancestors |
| `MixedMeaning.MixedRunsExtend` | dhnt/mixed_argo.go:366-454 | unless tasks wait for each other in a circle of needs and inputs or a native task produces an input, every partial run of the workflow extends to one that runs all tasks |
| `MixedMeaning.RunsToTheEnd` | dhnt/mixed_argo.go:366-454 | the workflow has a run of all tasks if and only if no names clash, there is no such circle, and no native task produces an input |
| `MixedMeaning.FedIsAcyclic` | dhnt/mixed_argo.go:401-414 | where every consumer reaches its producers through needs there is no such circle, so fed pipelines can run to the end |
| `MixedMeaning.SuppliesExact` | dhnt/mixed_argo.go:401-414 | with clear names, the emitted arguments are at hand throughout a run exactly when producers precede their consumers and declare the outputs referred to |
| `MixedWorkflows.ClearRuns` | dhnt/mixed_argo.go:691-718 | every task's template resolves, a native task's two steps included, and the entry is unambiguous, if and only if no such name clash exists |
| `MixedWorkflows.FlatNames` | dhnt/mixed_argo.go:416-436 | the emitted template names are exactly the tasks' own names, two more for each native task, and are distinct when no names clash |
| `MixedTemplates.JobVariablesApart` | dhnt/mixed_argo.go:660-683 | whatever order sorting leaves them in, the variables of a native job have different names and each keeps its own value if and only if no two inputs are spelled alike in the environment |
| `UnfedPipeline.UnfedAccepted` | dhnt/mixed_argo.go:265-454 | a valid pipeline without name clashes that mixed lowering accepts although one task needs the other while the other takes what the first makes |
| `UnfedPipeline.CircleNeverEnds` | dhnt/mixed_argo.go:401-414 | whatever lowering yields for that pipeline, no run of it reaches the end |
| `AccountProvisioner.Provisioner.Serve` | examples/matrix-chat/cloudbox_shim.py:221-243 | over any sequence of requests with at most one failure each: after every request each live account's password is the same in both stores, and every password in a response is live in both at that moment |
| `AccountProvisioner.Provisioner.Handle` | examples/matrix-chat/cloudbox_shim.py:221-243 | one request: malformed ones change nothing; others touch one account only, keep agreement with at most one failure, and answer truthfully; after resetting a live account to a new password the stores agree if and only if the lookup failed or the outcome of the calls is consistent; without failures an open account always gets its answer |
| `AccountProvisioner.Provisioner.Act` | examples/matrix-chat/cloudbox_shim.py:231-240 | the chosen action keeps agreement whenever its calls' outcome is consistent; ensuring a live account changes nothing |
| `AccountProvisioner.Provisioner.Create` | examples/matrix-chat/cloudbox_shim.py:261-277 | unless a rival registers the account first, agreement holds after every failure pattern; if one does, then for every failure pattern the stores agree afterwards if and only if the minted password was never stored or the vault is left with the winner's password; a created account answers with the password live in both stores; losing the race without failures leaves the vault as it was |
| `AccountProvisioner.Provisioner.Reset` | examples/matrix-chat/cloudbox_shim.py:279-309 | on an account in agreement, agreement after the reset holds if and only if the outcome of its calls is consistent: a landed change is acknowledged, confirmed or not rolled back, a change that did not land is rolled back; the new password is returned only when live in both stores; with at most one failure an error means nothing changed |
| `AccountProvisioner.Provisioner.Rotate` | examples/matrix-chat/cloudbox_shim.py:286-309 | the new state of both stores for every combination of outcomes |
| `AccountProvisioner.SingleFailure` | examples/matrix-chat/cloudbox_shim.py:291-307 | one failure always leaves a consistent outcome |
| `AccountProvisioner.TwoFailures` | examples/matrix-chat/cloudbox_shim.py:295-302 | for every account name a request may carry: one reset request with a lost reply and a failed probe leaves the vault with a dead password |
| `AccountProvisioner.Provisioner.TakeBack` | examples/matrix-chat/cloudbox_shim.py:270-276 | restores what the vault held before, or removes the entry, unless that very call fails, which leaves the vault as it was; touches no other account |
| `AccountProvisioner.Provisioner.Deactivate` | examples/matrix-chat/cloudbox_shim.py:311-328 | agreement holds after every failure pattern; success means the account is deactivated; if it stays live, nothing changed |
| `AccountProvisioner.Provisioner.DisplayName` | examples/matrix-chat/cloudbox_shim.py:245-259 | a failed name never costs the client a password |
| `AccountProvisioner.Provisioner.RefInjective` | examples/matrix-chat/cloudbox_shim.py:218-219 | different accounts have different vault entries |
| `AccountProvisioner.Homeserver.WithPasswordAuth` | examples/matrix-chat/cloudbox_shim.py:182-193 | the change is applied exactly when it lands under the server's authentication rule, whatever the caller is told |
| `AccountProvisioner.Homeserver.Register` | examples/matrix-chat/cloudbox_shim.py:137-145 | an existing account is never changed; a lost reply may still have created one |
| `AccountProvisioner.Vault.Set` | examples/matrix-chat/cloudbox_shim.py:72-75 | a failed write has no effect |
| `AccountProvisioner.Vault.Remove` | examples/matrix-chat/cloudbox_shim.py:77-79 | a failed removal has no effect |

## Left out

- Runner.ExecuteTask: says nothing about two runners racing on one output path; the code removes a path that appeared meanwhile (dhnt/runner.go:200-204), even one another runner published.
- Campaigns.Retry: asks for staging and evidence names that are not on disk at the start, a pod UID no earlier run had and no failing calls in the last run; children write only to their staged outputs, home and temporary directory; file modes, which could also keep a command from starting, are not modelled.
- AccountProvisioner.Provisioner.Reset: assumes that a newly minted password differs from the current one only where the if-and-only-if needs it.
- MixedArgo.LowerMixed: of the templates it keeps what each task runs, where and with which artifacts, variables and resource requests; constant selectors and labels, the text of the native job manifest and the collector script (dhnt/mixed_argo.go:575-578, 689-716, 729-791, 824-849) are not part of it.
- MixedMeaning.MixedLoweringMeaning: a run is an order of tasks in which names resolve, dependencies are done and arguments are at hand; a native task's two steps count as one, and Argo's own rules for how names are spelled, its retries and its deadlines are not modelled.
- ArgoMeaning.LoweringMeaning: a workflow's meaning is the order in which its entry template may run its tasks; Argo's retries, deadlines and pod scheduling are not modelled.
- The bindings' own validation (dhnt/argo.go:418-514, dhnt/mixed_argo.go:111-187) beyond what the lowerings rely on: distinct task ids and artifact names, distinct workers and nodes, distinct initial artifacts.
- The v1 lowering and its environment (dhnt/argo.go:71-198, 516-571).
- SHA-256, YAML, base64 and the JSON encoders are function parameters; time parsing and trace ids too.
- The tree digest inside a runner is a function of the tree's files; TreeDigest shows separately what that function must hash.
- Symlinks, the root handle's escape rules, file modes, fsync and process groups: the workspace has no symlinks and a stopped child writes no more.
- Trimming, upper- and lower-casing and stripping follow ASCII only; strings are sequences of bytes.
- JSON text is taken as tokens; how field types and required fields are read off struct tags (dhnt/contract.go:696-774) is a parameter.
- Decoding wrappers (DecodePipeline, DecodeRun, DecodeRunnerSpec, AggregateJSON) combine members that are modelled and the JSON decoder, which is not.
- dhnt/placement.go: planning is done by a library that is not part of this model; the membership hash is a parameter.
- dhnt/native_result.go: single checks over JSON and base64 libraries.
- Hashing an artifact outside a workspace (dhnt/artifact.go:32-137) repeats the runner's tree walk over the plain file system.
- The provisioner's HTTP handler, request forwarding, tunnel token and device logout (examples/matrix-chat/cloudbox_shim.py:196-201, 331-480); the lock is the reason requests are served one after another.
- internal/agentos, cmd, scripts, builds and the other examples: command dispatch, presentation, release tooling and test drivers.
