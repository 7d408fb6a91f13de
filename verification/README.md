# kubwave, modelled and proved in Dafny

kubwave installs and runs a small hosting platform on Kubernetes. This project models the parts of it that hold real
protocols and algorithms, and proves what they promise:

- **The build agent** (`apps/build-agent`). `AgentLogs` is the bounded log buffer of a build with its pump, as a history
  machine and as the class `ActiveTask` that refines it. `LogDelivery` follows its batches to the server's table.
  `BuildAgents` is the table of running builds with its watchdog and heartbeat; `Leases` puts any number of agents, the
  clock and the build server into one machine. `DockerOutput` cuts a command's output into lines; `DockerBuild` runs one
  build and cleans up after it.
- **Uninstalling** (`apps/cli/src/commands/uninstall.ts`). `VolumeReclaim` hands disks to the storage driver and
  `CsiTeardown` removes the driver, in a cluster that others change at the same time.
- **Secrets** (`apps/cli/src/lib/secrets.ts`). `RegistrySecrets` and `PlatformSecrets` are multi-write updates without a
  transaction, which may crash at any call.
- **Configuration** (`apps/cli/src/lib`). `ObjectPath` is deep merge over JSON trees; `Traefik`, `DependencyState`,
  `InstallState` and `InstallResolve` build on it: Helm values, drift, layered state, the install marker and what an
  upgrade makes of it; `ValuePaths` reads layered values path by path, and
  `ResolutionOrder` says where every field comes from.
- **Text and order.** `ServiceReferences` and `ConfigValues` rename references inside configuration texts, `Dotenv` prints
  and parses `.env` files, `Versions` orders versions, `DefaultDomain` builds host names. `Text`, `Calls` and
  `Wrappers` hold shared helpers.

`dafny verify dfyconfig.toml` checks everything.

## How the parts are modelled

- **What a method is proved against.** Where the program loops or updates state there is a method or a class, and its
  contract ties the result or the new state to a specification function. The main results are lemmas about those functions,
  over all inputs, all event sequences or all schedules.
- **Everything outside the program is arbitrary.** `Host`, `Api`, `Cluster` and `SecretStore` answer from a function that
  is quantified over: at each call time may pass, other actors may change the cluster, the request may be lost, or it may
  take effect and the answer be lost. A crash is a call after which nothing more happens.
- **Time** is one integer clock that never goes back. A timer takes at least a millisecond.
- **Resource versions** come from one revision counter that every change raises, as Kubernetes does it.
- **The build server** only extends leases that have not ended, and gives a task out again only after its lease has ended
  (`apps/backend/src/modules/build-agents/build-agents.service.ts:149-213`, `apps/backend/src/shared/builds/runs.ts:153`).
  Watchdogs tick at least once a second, and a claim is acted on within the ten seconds of a request's timeout
  (`apps/build-agent/src/api.ts:21`).
- **The server's log table** holds one row per container and sequence number of an attempt
  (`packages/db/src/schema.ts:736`) and ignores an insert of another. A batch the server refuses does not arrive.
- **Cryptography** is a constructor: a bcrypt hash stands for the password it verifies, a ciphertext for its plaintext and a
  nonce. JSON values are trees, and parsing undoes printing.
- **Ids** of tasks are UUIDs, so they are all of one length (`apps/backend/src/modules/build-agents/build-agents.dto.ts:15`).
- **Numbers** are reals. How the language prints them is a parameter, of which only this is used: integers are printed in
  decimal, and different numbers differently.

## What turned out not to hold

Each of these is a fact about the code as it is. Where a property fails, a lemma says exactly when it holds.

- Deep merge is associative exactly for inputs that agree in shape (`MergeAssociative`, `MergeNotAssociative`); a marker
  survives migration exactly if its legacy values and its dependency record agree over the defaults (`MigrationIsLossless`,
  `MigrationCanChange`).
- A pool that was made smaller or empty is not drift (`ShrunkPoolIsNotDrift`), although the comment in `dependencies.ts:222`
  promises that shrinking removes ports: that happens only when something else makes the release reinstall. A change of the
  pool is seen exactly if the new pool is neither empty nor within the old one (`PoolDriftIff`).
- The class name, the namespace and the Helm values of the ingress controller are not written to the marker, so a state that
  holds them without a dependency record can forget them (`ClassNameIsForgotten`); each comes back exactly if the record, or
  without one the live release, says the same (`SupersededFieldsIff`, `RecordedValuesIff`, and `OldMarkerNamesIff` for
  markers of older releases).
- A rename can lose a reference, whatever the new name: an unclosed opening swallows a reference that spanned two lines
  before the rename (`RenameCanLoseReference`). `RenameRescansIff` has the exact condition for all texts and names.
- `formatDotenv` says that `parseDotenv` reads back the same entries. It does so exactly for values that do not end in a
  backslash and hold no U+2028 or U+2029 (`DotenvRoundTrip`).
- Numeric prerelease identifiers with leading zeros can mask a later difference (`LeadingZeroMasks`,
  `ComparisonIsPrecedenceIff`).
- A registry push secret that cannot be read is never replaced once an htpasswd secret is there, and a crash after the
  first write of a run can bring that about (`StuckStaysStuck`, `CrashCanStick`); a completed run heals exactly all other
  pairs (`CompletedRunHeals`).
- If `postgres-creds` is deleted, the next run generates another password while the database keeps the old one
  (`DeletedPostgresIsNotRecovered`). Over any history the password is shared all along exactly if it is at the start and
  every step is safe: `postgres-creds` is deleted only while the app's copy is absent, and no run gets to the app's copy
  over a `postgres-creds` that holds no password (`SharedThroughoutIff`, and `SharingSurvivesARun` for one run).
- An aborted build that takes longer to wind down than its lease, and whose task comes back to the same agent, is lost from
  the table while it is unfinished (`SlowAbortIsOverwritten`). A build is lost exactly if a start of its task
  overwrites it unfinished, and it is not live then (`NoUntrackedExecution`); none is lost exactly if every start finds its
  task untracked or its entry finished (`NothingLostIff`).
- Lines over 8192 characters are reported differently depending on where the chunks end (`LongLinesDependOnChunks`); texts
  without such lines never are (`StreamingIsSplitting`).

## Model

| member | source | states |
|---|---|---|
| AgentLogs.NextKeepsInv | apps/build-agent/src/main.ts:52-74 | every step of push, flush, answer and settle keeps the invariant: numbered lines, ordered batches below the buffer, every lost line counted, the request in flight never above the buffer |
| AgentLogs.LogAccounting | apps/build-agent/src/main.ts:52-98 | over every interleaving the lines shifted out are exactly those still to be reported plus those acknowledged batches reported; every line before the buffer was acknowledged or shifted; no line is acknowledged twice |
| AgentLogs.DropCountNeverClamps | apps/build-agent/src/main.ts:68 | over every interleaving a batch in flight reports no more drops than are counted, so the subtraction's clamp is never used |
| AgentLogs.ResultGuard | apps/build-agent/src/main.ts:146-149 | whenever the buffer is empty and nothing is in flight, no drop is left to report and every emitted line was acknowledged or falls under a reported count |
| AgentLogs.BufferShape | apps/build-agent/src/main.ts:55-67 | at most 512 buffered lines, numbered without a gap to the newest; each batch is a stretch of at most 100 emitted lines, unchanged but for the notice, above all acknowledged ones |
| AgentLogs.IncreasingPairs | apps/build-agent/src/main.ts:64-69 | acknowledged batches are pairwise disjoint and increasing |
| AgentLogs.LinesAfterIsSuffix | apps/build-agent/src/main.ts:67 | filtering the buffer by the acknowledged number drops exactly a prefix, also when part of the batch was shifted out meanwhile |
| AgentLogs.NoticeIsTold | apps/build-agent/src/main.ts:56-61 | a reader that knows only the bracket, a number and the words is told the number of a notice in front of any message, if and only if the notice fits into a message |
| AgentLogs.NoticeFits | apps/build-agent/src/main.ts:56-61 | it does for every number that is counted exactly |
| AgentLogs.NoticesDiffer | apps/build-agent/src/main.ts:56-61 | two counts never give the same message |
| AgentLogs.NotedDiffers | apps/build-agent/src/main.ts:56-61 | a message with a notice differs from the line, unless that fills a message and starts with the same notice |
| AgentLogs.BatchTells | apps/build-agent/src/main.ts:52-65 | over every interleaving the first line of a batch tells its drop count, in front of the line, and all other lines are as they were emitted |
| AgentLogs.LinesArePushed | apps/build-agent/src/main.ts:88-98 | over every interleaving the log holds what was pushed, all of it, in order and cut at 8192 characters |
| AgentLogs.LossOnlyWhenFull | apps/build-agent/src/main.ts:88-98 | a line is lost exactly when 512 are buffered, and then it is the oldest and is counted |
| AgentLogs.FlushSends | apps/build-agent/src/main.ts:52-65 | a batch is sent exactly when none is under way and there are lines: the oldest ones, as many as there are up to a hundred |
| AgentLogs.AnswerSettles | apps/build-agent/src/main.ts:65-73 | an answer takes the batch and what it reported off the buffer, a failure takes nothing |
| AgentLogs.ActiveTask.constructor | apps/build-agent/src/main.ts:81 | a new build has an empty log and is neither aborted nor finished |
| AgentLogs.ActiveTask.Push | apps/build-agent/src/main.ts:88-98 | a pushed line changes buffer, counter and drop count as the history machine says; a full buffer loses its first line |
| AgentLogs.ActiveTask.StartFlushing | apps/build-agent/src/main.ts:52-65 | what the pump sends and when it sends nothing, as the history machine says |
| AgentLogs.ActiveTask.Acknowledge | apps/build-agent/src/main.ts:65-69 | an answered request settles its drop count and drops the lines it carried from the buffer |
| AgentLogs.ActiveTask.Reject | apps/build-agent/src/main.ts:70-72 | a failed request changes nothing but that it is over |
| AgentLogs.ActiveTask.Settle | apps/build-agent/src/main.ts:70-72 | the pump may send again |
| AgentLogs.ActiveTask.Finish | apps/build-agent/src/main.ts:101-112 | a build that ends has a result, with at most 2000 characters of its error, and its log stays the one the history machine describes |
| AgentLogs.ActiveTask.MayPostResult | apps/build-agent/src/main.ts:146 | the guard for posting a result; when it passes the log is complete |
| BuildAgents.BuildAgent.WatchdogTick | apps/build-agent/src/main.ts:42-44 | exactly the builds whose lease ends within ten seconds are aborted |
| BuildAgents.BuildAgent.Stop | apps/build-agent/src/main.ts:45-50 | a signal aborts every build and forgets none |
| BuildAgents.BuildAgent.Start | apps/build-agent/src/main.ts:79-82 | a claimed task gets a new build and overwrites an entry of the same name |
| BuildAgents.BuildAgent.Visit | apps/build-agent/src/main.ts:139-150 | a turn of the heartbeat's loop: canceled builds are aborted and, if finished, forgotten; others get the new lease; the result is posted exactly if finished, empty and idle, and then the log is complete |
| BuildAgents.BuildAgent.Renew | apps/build-agent/src/main.ts:145-146 | a renewed build that may post its result has a complete log |
| BuildAgents.BuildAgent.Forget | apps/build-agent/src/main.ts:142-148 | a finished build leaves the table and nothing else changes |
| BuildAgents.BuildAgent.Sweep | apps/build-agent/src/main.ts:165-166 | exactly the aborted and finished builds go, on shutdown or after their lease |
| LogDelivery.NothingIsMissing | apps/backend/src/modules/build-agents/build-agents.service.ts:237-258 | over every history of pushes, flushes, failing and lost answers, and batches that arrive late, out of order or again: every row is an emitted line, unchanged but for a notice, and up to every row and every acknowledged line each line has its row or is among those that a later row tells its reader were dropped |
| LogDelivery.ResultMeansDelivered | apps/build-agent/src/main.ts:146-149 | whenever a result may be posted, every line of the build is in the server's table or among those that a row there tells its reader were dropped |
| LogDelivery.RowsNeverChange | apps/backend/src/modules/build-agents/build-agents.service.ts:241-256 | whatever arrives later, again included, never changes or removes a row |
| LogDelivery.MovedKeepsSound | apps/build-agent/src/main.ts:52-74 | every step of the agent and every arrival keeps the invariant: whatever the notice of a sent batch does not speak of is kept already |
| LogDelivery.InsertAdds | apps/backend/src/modules/build-agents/build-agents.service.ts:241-256 | one insert adds exactly the missing keys, with the lines that came |
| Leases.StepKeepsInv | apps/build-agent/src/main.ts:117-169 | every step of agents, clock and server keeps the lease invariant |
| Leases.TickKeepsInv | apps/build-agent/src/main.ts:42-44 | after a tick every build that is not aborted has more than ten seconds of its lease left |
| Leases.VisitKeepsInv | apps/build-agent/src/main.ts:139-150 | applying a renewal, however late, never moves a live build's lease back or past the server's |
| Leases.StartKeepsInv | apps/build-agent/src/main.ts:151-156 | an offer acted on in time is still the current grant, and starting it never loses a live build |
| Leases.HeartbeatKeepsInv | apps/backend/src/modules/build-agents/build-agents.service.ts:149-176 | the server renews exactly the owned tasks and reports all others as canceled |
| Leases.ClaimKeepsInv | apps/backend/src/modules/build-agents/build-agents.service.ts:179-213 | giving a task out again after its lease ended finds no live build of it anywhere |
| Leases.LiveBuildsHoldTheirLease | apps/build-agent/src/main.ts:42-44 | over every run of any number of agents, a build that works without having been aborted has more than nine seconds of lease left, under the grant the server knows and no later than the server's end |
| Leases.OneLiveBuildPerTask | apps/build-agent/src/main.ts:117-169 | over every run no task has two live builds, whatever is lost, delayed or given out again |
| Leases.NoUntrackedExecution | apps/build-agent/src/main.ts:139-166 | over every run a build leaves the table unfinished if and only if a start of the same task overwrites it, and none leaves it live |
| Leases.NothingLostIff | apps/build-agent/src/main.ts:79-82 | over every run every build that left a table had finished, if and only if each start found its task untracked or its entry finished |
| Leases.SlowAbortIsOverwritten | apps/build-agent/src/main.ts:79-82 | a concrete run in which a reused task name loses an unfinished build |
| Leases.LeavesIff | apps/build-agent/src/main.ts:139-166 | over every run the builds that have left a table are exactly those whose result was posted, that had finished and were reported as canceled, whose task started again, or that were aborted and finished while their agent was stopping or their lease had ended |
| Leases.ResultsArePosted | apps/build-agent/src/main.ts:139-166 | a build that was never aborted leaves only when its result is posted, when the server has given it up, or when its task starts again |
| Leases.BuildAfterStep | apps/build-agent/src/main.ts:42-150 | what every step does to a build that stays: when exactly it is aborted, gets a lease, and finishes |
| Leases.BuildAfterStart | apps/build-agent/src/main.ts:79-82 | a started build runs under the offered grant, for ninety seconds from the offer |
| Leases.HeartbeatAnswers | apps/backend/src/modules/build-agents/build-agents.service.ts:149-176 | exactly the tracked tasks whose running lease the build has and that are not refused are renewed for ninety seconds, and all others are reported as canceled |
| Leases.ClaimGrants | apps/backend/src/modules/build-agents/build-agents.service.ts:179-213 | a claim gets a task that is free or whose lease has ended, under a grant that was never given out |
| DockerOutput.StreamingIsSplitting | apps/build-agent/src/docker.ts:57-74 | for every way of cutting a text into chunks the reported lines are the newline split without a final empty piece, if and only if no line exceeds 8192 characters |
| DockerOutput.FedIsBounded | apps/build-agent/src/docker.ts:65-69 | nothing longer than 8192 characters is ever reported or kept |
| DockerOutput.FedReports | apps/build-agent/src/docker.ts:59-70 | what a chunk reports: every whole line cut at 8192 characters, and of a longer rest the first 8192; a shorter rest waits |
| DockerOutput.LinesAreWhole | apps/build-agent/src/docker.ts:64-73 | the lines of a text have no line breaks and, with one behind each, make the text |
| DockerOutput.LongLinesDependOnChunks | apps/build-agent/src/docker.ts:66-69 | one text, two ways of cutting it, different lines |
| DockerOutput.LastOfLast | apps/build-agent/src/docker.ts:61 | keeping a rolling tail gives the tail of the whole |
| Text.SplitJoins | apps/build-agent/src/docker.ts:63-64 | splitting loses nothing: the pieces have no separators and, with those between them, are the text |
| Text.SplitTerminated | apps/build-agent/src/docker.ts:63-64 | and no other pieces do that |
| Text.TrimIs | apps/build-agent/src/docker.ts:77-80 | trimming takes off white space at both ends, all of it and nothing else |
| Text.CharacterClasses | apps/console/lib/parse-dotenv.ts:1-8 | the characters that are white space, line terminators, digits and letters, by number |
| Text.DecimalIsRead | apps/build-agent/src/main.ts:59 | a printed number is read back |
| Text.DigitsMean | apps/console/lib/versions.ts:8-17 | digits count in tens |
| DockerOutput.StreamReader.OnData | apps/build-agent/src/docker.ts:59-70 | one chunk takes the reader from the state of the chunks before to the state of all chunks |
| DockerOutput.StreamReader.OnEnd | apps/build-agent/src/docker.ts:71-73 | the lines of a whole stream are at most 8192 long, and those of the whole text exactly if none of its lines is longer |
| DockerOutput.DockerCall.OnData | apps/build-agent/src/docker.ts:56-61 | the shared output is the last 16384 characters of everything printed on both streams, in order of arrival |
| DockerBuild.ExecuteBuild | apps/build-agent/src/docker.ts:106-187 | whatever docker and the server answer, a build follows its plan to the end or to its first failure, reports that failure's reason, and then removes all it recorded; without stages nothing happens |
| DockerBuild.PrepareVolume | apps/build-agent/src/docker.ts:119-148 | a volume's steps in order, each recorded before it is tried, stopping at the first failure |
| DockerBuild.RunContainer | apps/build-agent/src/docker.ts:150-157 | a stage's steps in order; out of memory is reported before the exit code |
| DockerBuild.RunStage | apps/build-agent/src/docker.ts:149-182 | a stage, and pinning after it if it is the prepare stage |
| DockerBuild.PinCommit | apps/build-agent/src/docker.ts:158-181 | the pinned commit is the trimmed output of the container that read it |
| DockerBuild.RemoveAll | apps/build-agent/src/docker.ts:183-186 | every recorded container, then every recorded volume, whatever docker answers |
| DockerBuild.CreatedIsRemoved | apps/build-agent/src/docker.ts:118-187 | wherever a build ends, every container and volume it tried to create is removed afterwards |
| DockerBuild.ContainersBeforeVolumes | apps/build-agent/src/docker.ts:183-186 | after the first removal only removals follow, and no container after a volume |
| DockerBuild.StagesRunInOrder | apps/build-agent/src/docker.ts:149-157 | a stage is touched only after every earlier stage ended with exit code 0 and without running out of memory |
| DockerBuild.PinnedAfterPrepare | apps/build-agent/src/docker.ts:158-181 | the source is pinned only for the prepare stage, after it ended well, with the commit read just before |
| DockerBuild.PreparedIsPinned | apps/build-agent/src/docker.ts:158-181 | after the prepare stage has ended well the very next step reads the commit, and unless that fails the one after it pins what was read |
| DockerBuild.PinnedBeforeNext | apps/build-agent/src/docker.ts:158-181 | the source is pinned before any step of a later stage, and in every build that goes well |
| DockerBuild.BuiltDidEverything | apps/build-agent/src/docker.ts:118-182 | a build that goes well has run every stage to a good end and has created and filled every volume |
| DockerBuild.FailureTellsWhy | apps/build-agent/src/docker.ts:149-157 | the reason of a failed build is what its last step says: canceled, out of memory, an exit code, or a failing command |
| DockerBuild.OnlyRecordedIsRemoved | apps/build-agent/src/docker.ts:183-186 | nothing is removed that was not recorded before |
| DockerBuild.ValidMountsFit | apps/build-agent/src/docker.ts:37-41 | a container is configured exactly with mounts of volumes that were created, at absolute paths without a comma |
| DockerBuild.PlanIsWellNamed | apps/build-agent/src/docker.ts:113-159 | every name is made of its task, the attempt, and the volume or the stage, and mounts are of the volumes of this build |
| DockerBuild.NamesDiffer | apps/build-agent/src/docker.ts:113-159 | names of different tasks, attempts, volumes or stages differ |
| DockerBuild.NothingStartsAfterAbort | apps/build-agent/src/docker.ts:122-182 | once the abort signal is set, for good, no further stage is entered, and the first check or signalled command that is tried fails and ends the build, which has failed; the removals are not affected |
| DockerBuild.SignalIs | apps/build-agent/src/docker.ts:122-157 | what the abort signal does: from its moment on the commands that are given it fail and the program sees it, before it does not |
| VolumeReclaim.Api.PatchPolicyToDelete | apps/cli/src/commands/uninstall.ts:120-123 | an answered patch leaves the policy at Delete; it writes at most that volume |
| VolumeReclaim.Api.PatchFinalizers | apps/cli/src/commands/uninstall.ts:640-645 | a finalizer patch takes effect only on the version it names |
| VolumeReclaim.ListTargets | apps/cli/src/commands/uninstall.ts:125-132 | a list read page by page is the set of target volumes, each once, as they all were at the one moment at which this call's list began; it fails exactly if its last page is not answered |
| VolumeReclaim.NextList | apps/cli/src/commands/uninstall.ts:656-659 | another list is asked for after sleeping for the poll interval, only before the deadline, and nothing is written meanwhile |
| VolumeReclaim.ProcessVolume | apps/cli/src/commands/uninstall.ts:616-653 | one volume of one pass: a retained one has its policy patched, and once it is not retained an unbound protected one is stripped by its listed version; all writes are justified against any concurrent changes |
| VolumeReclaim.OthersAreKept | apps/cli/src/commands/uninstall.ts:636-645 | the finalizers that are kept are all but the protecting one, as often and in the order they were |
| VolumeReclaim.OneMoreHandled | apps/cli/src/commands/uninstall.ts:616-653 | a pass that handled some volumes and then one more has handled them all in order |
| VolumeReclaim.StripIsJustified | apps/cli/src/commands/uninstall.ts:636-645 | a strip that took effect hit the volume exactly as listed, neither Retain nor Bound; right after the pass's own policy patch it cannot take effect |
| VolumeReclaim.ReclaimClaimedVolumes | apps/cli/src/commands/uninstall.ts:589-676 | for each list the API gave during the run, in order, exactly that list's targets are handled, in order, and nothing else is asked; every write is justified by one of these lists; only an unanswered page of a list ends the run without a report, never a failing patch; the loop sleeps for the poll interval before each further list, never once the deadline after the first list has passed, and ends with the first list without a target or at that deadline; the volumes left are the last list's, and the count is of the seen names it no longer shows |
| VolumeReclaim.ReclaimRetained | apps/cli/src/commands/uninstall.ts:555-586 | the sweep reads one list, sends one policy patch for each retained target of what it read of it and nothing else, goes on after a failing patch, counts each by its answer, and ends early if and only if a page is not answered |
| VolumeReclaim.SweepVolume | apps/cli/src/commands/uninstall.ts:565-583 | one volume of the sweep is ignored, skipped, or patched and counted by the answer |
| VolumeReclaim.CountReclaimed | apps/cli/src/commands/uninstall.ts:666 | the difference of the two sizes is the number of seen names not listed any more |
| VolumeReclaim.ChangesFollow | apps/cli/src/commands/uninstall.ts:636-637 | after any changes by others, a volume whose version is not newer is the very volume that was listed |
| VolumeReclaim.ChangesAre | apps/cli/src/commands/uninstall.ts:636-637 | others may put and remove any volume, and every change makes a new version |
| CsiTeardown.UninstalledOnlyWhenEmpty | apps/cli/src/commands/uninstall.ts:884-905 | a driver is uninstalled only right after a count whose list shows none of its volumes |
| CsiTeardown.RemovedOnlyWhenSafe | apps/cli/src/commands/uninstall.ts:867-944 | over a whole teardown of any targets, every uninstall comes right after a count whose list shows none of the driver's volumes, and every storage class that is deleted was read just before with the ownership label, right after its driver was uninstalled |
| CsiTeardown.EmptyIsRemoved | apps/cli/src/commands/uninstall.ts:876-944 | once a count shows none of its volumes a driver is uninstalled, and if that succeeds its storage class is read, and deleted if it is owned; a target is skipped only with volumes left at the deadline |
| CsiTeardown.CountIs | apps/cli/src/commands/uninstall.ts:946-952 | the count is the number of listed volumes of the driver |
| CsiTeardown.TearDown | apps/cli/src/commands/uninstall.ts:876-916 | one target goes through counts until its volumes are gone, the deadline passes or a count fails, and is removed only in the first case |
| CsiTeardown.TearDownDrivers | apps/cli/src/commands/uninstall.ts:867-918 | every target gets its own run, whatever became of the others |
| CsiTeardown.Cluster.Uninstall | apps/cli/src/commands/uninstall.ts:900-905 | one request, answered in any way, is one uninstall in the record of what happened |
| CsiTeardown.Cluster.CountVolumes | apps/cli/src/commands/uninstall.ts:946-952 | the paged count is the number of listed volumes of the driver; it is missing only if a page fails |
| CsiTeardown.Cluster.DeleteOwnedStorageClass | apps/cli/src/commands/uninstall.ts:923-944 | a class that is gone or not owned is left alone; other failures are failures |
| CsiTeardown.CountZero | apps/cli/src/commands/uninstall.ts:946-952 | the count is zero exactly if no listed volume has the driver |
| RegistrySecrets.CreateRegistrySecrets | apps/cli/src/lib/secrets.ts:115-154 | against deletions and a crash at any call every state is matched and no readable push secret is rotated; undisturbed, the run goes through the planned states, all of them if it completes, and it completes unless a call fails |
| RegistrySecrets.SecretStore.UpsertHtpasswd | apps/cli/src/lib/secrets.ts:199-210 | the secret is created or replaced, or the call fails if it was deleted in between |
| RegistrySecrets.SecretStore.UpsertPush | apps/cli/src/lib/secrets.ts:199-210 | the same for the push secret, which is only ever written when it was not readable |
| RegistrySecrets.EveryWriteMatches | apps/cli/src/lib/secrets.ts:135-153 | after any number of a run's writes the secrets match, and a readable push secret is what it was |
| RegistrySecrets.CompletedRunHeals | apps/cli/src/lib/secrets.ts:115-154 | a completed run ends with both secrets present and matching, if and only if they were not both there with an unreadable password; a second run changes nothing |
| RegistrySecrets.RunLeaves | apps/cli/src/lib/secrets.ts:115-154 | a pair that was there stays, a readable push secret stays and gets its hash, and otherwise both secrets are made of the new password, the hash first |
| RegistrySecrets.FirstPasswordIs | apps/cli/src/lib/secrets.ts:176-188 | the password that is read is the first that is not empty, unless a null comes before it |
| RegistrySecrets.HashVerifies | apps/cli/src/lib/secrets.ts:132-139 | a hash verifies its own password and no other |
| RegistrySecrets.CredentialsHeal | apps/cli/src/lib/secrets.ts:115-154 | over any history of crashed runs and deletions the secrets stay matched, and without an unreadable push secret at the start the next completed run heals them |
| RegistrySecrets.NeverRotated | apps/cli/src/lib/secrets.ts:126-142 | over any history that does not delete it, a readable push secret stays what it was |
| RegistrySecrets.StuckStaysStuck | apps/cli/src/lib/secrets.ts:118-123 | an unreadable pair stays as it is over any number of runs |
| RegistrySecrets.CrashCanStick | apps/cli/src/lib/secrets.ts:126-142 | a concrete crash after the first write makes such a pair |
| PlatformSecrets.CreateSecrets | apps/cli/src/lib/secrets.ts:12-70 | against anything others do and a crash at any call, every write creates a secret that is not there or takes the stale key out of console-creds; unless others tamper with the database secrets every state of the run shares the password; undisturbed, the run ends in one of its four places, and in the last unless a call fails |
| PlatformSecrets.CreateDatabaseSecrets | apps/cli/src/lib/secrets.ts:37-69 | undisturbed, the two database secrets are written with one password, the stored one if there is one, up to the place where a call fails |
| PlatformSecrets.SecretStore.Write | apps/cli/src/lib/secrets.ts:74-111 | what a write of the program is, and that it is recorded |
| PlatformSecrets.SecretStore.CreateConsole | apps/cli/src/lib/secrets.ts:97-111 | console-creds is created only if it is absent |
| PlatformSecrets.SecretStore.RemoveStaleConsoleKey | apps/cli/src/lib/secrets.ts:74-95 | only the stale key goes, and only from the version that was read |
| PlatformSecrets.SecretStore.CreatePostgres | apps/cli/src/lib/secrets.ts:42-55 | postgres-creds is created with the password only if it is absent |
| PlatformSecrets.SecretStore.CreateApp | apps/cli/src/lib/secrets.ts:57-69 | the app's copy is created only if it is absent, with the password postgres-creds holds |
| PlatformSecrets.SharingSurvivesARun | apps/cli/src/lib/secrets.ts:37-69 | from a shared state every place a run can end in is shared, if and only if postgres-creds is absent or holds a password |
| PlatformSecrets.PasswordStaysShared | apps/cli/src/lib/secrets.ts:37-69 | over any runs that end anywhere and deletions of the app's copy, the copy exists only with the same password, and postgres-creds never changes once it is there |
| PlatformSecrets.SharedThroughoutIff | apps/cli/src/lib/secrets.ts:37-69 | over every history of crashed runs and deletions of either database secret, from any start: the password is shared all along if and only if it is at the start, postgres-creds is only deleted while the app's copy is absent, and no run reaches the app's copy over a postgres-creds without a password |
| PlatformSecrets.SharedAtEveryMoment | apps/cli/src/lib/secrets.ts:37-69 | all along means after every prefix of the history |
| PlatformSecrets.SecondRunChangesNothing | apps/cli/src/lib/secrets.ts:12-70 | after a completed run, another run changes nothing wherever it ends |
| PlatformSecrets.RunLeaves | apps/cli/src/lib/secrets.ts:12-70 | what a completed run leaves: every secret that was there, but for the stale key, and otherwise a new one with the keys its readers expect |
| PlatformSecrets.WritesInOrder | apps/cli/src/lib/secrets.ts:12-70 | the order of the writes |
| PlatformSecrets.KeysNeverChange | apps/cli/src/lib/secrets.ts:22-35 | over any history console-creds keeps its data, at most without the stale key |
| PlatformSecrets.DeletedPostgresIsNotRecovered | apps/cli/src/lib/secrets.ts:37-55 | a concrete history in which deleting postgres-creds leaves two different passwords |
| ObjectPath.MergeObjects | apps/cli/src/lib/object-path.ts:7-16 | the nested loops compute the fold of the two-object merge, in order |
| ObjectPath.ReadPath | apps/cli/src/lib/object-path.ts:18-25 | the walk finds what is at the path, or nothing |
| ObjectPath.MergeIsLocal | apps/cli/src/lib/object-path.ts:10-13 | the result under a key depends only on that key's values |
| ObjectPath.MergeCoversLater | apps/cli/src/lib/object-path.ts:7-16 | a merge has everything its last argument asks for |
| ObjectPath.MergeMonotone | apps/cli/src/lib/object-path.ts:7-16 | merging the same values onto a tree that covers another keeps the cover |
| ObjectPath.CoversReflexive | apps/cli/src/lib/dependencies.ts:390-399 | no values drift from themselves |
| ObjectPath.CoversTransitive | apps/cli/src/lib/dependencies.ts:390-399 | the drift relation is transitive |
| ObjectPath.CoversIffReapplyChangesNothing | apps/cli/src/lib/dependencies.ts:390-399 | without records inside arrays, nothing has drifted if and only if merging the desired values again changes nothing |
| ObjectPath.MergeAssociative | apps/cli/src/lib/object-path.ts:7-16 | merging is associative if and only if the three inputs agree in shape |
| ObjectPath.MergeNotAssociative | apps/cli/src/lib/object-path.ts:7-16 | three concrete inputs for which it is not |
| ObjectPath.MergeAbsorbs | apps/cli/src/lib/object-path.ts:7-16 | a base merged under its own result changes nothing |
| ObjectPath.MergeRepeats | apps/cli/src/lib/object-path.ts:7-16 | merging the same values twice is merging them once |
| ObjectPath.RenormaliseIsNoop | apps/cli/src/lib/object-path.ts:7-16 | a base put under two layers that already lie on it changes nothing if and only if they agree in shape |
| Traefik.ResolvePoolRoundTrip | packages/kube/src/platform/settings/tcp-port-pool.ts:13-34 | a pool survives being written down and resolved if and only if it is valid |
| Traefik.BuildTcpPoolPorts | apps/cli/src/lib/traefik.ts:16-24 | for any two numbers, one entry for each turn of the loop, and none for a disabled pool |
| Traefik.TurnsAre | apps/cli/src/lib/traefik.ts:18 | the loop runs for every number below the size |
| Traefik.PortsAreExact | apps/cli/src/lib/traefik.ts:18-22 | for any two numbers the entries are those of the ports start, start + 1 and so on, each under its own key, as many as there are turns, and nothing else |
| Traefik.WholePoolIsExact | apps/cli/src/lib/traefik.ts:16-24 | a pool of whole numbers has one entry per port of its range under that port's key and nothing else, as many keys as its size says |
| Traefik.PoolIsExact | apps/cli/src/lib/traefik.ts:16-24 | the ports of a pool are exactly the keys of its range, all distinct |
| Traefik.BuildTraefikHelmValues | apps/cli/src/lib/traefik.ts:48-55 | existing values, the base and the configuration merged in that order, with configured ports replacing all others |
| Traefik.RepairConverges | apps/cli/src/lib/dependencies.ts:351-359 | whatever an existing release holds, the values built from it have not drifted from the configuration, configured ports are exactly those, and building again changes nothing |
| Traefik.DriftIsInThePorts | apps/cli/src/lib/dependencies.ts:351-359 | a release written for a configuration with other ports has drifted if and only if its ports do not cover the wanted ones, whatever else it holds |
| Traefik.PoolDriftIff | apps/cli/src/lib/dependencies.ts:351-359 | a release written for one pool has drifted from another if and only if the other is neither empty nor within the first |
| Traefik.ShrunkPoolIsNotDrift | apps/cli/src/lib/dependencies.ts:351-359 | a release written for a pool that was since made smaller, or empty, has not drifted, although its ports are not those that would be written now |
| DependencyState.MergeDependencyState | apps/cli/src/lib/dependency-state.ts:44-73 | the layers are applied to the defaults in order, absent ones skipped |
| DependencyState.ResolveDependencyState | apps/cli/src/lib/dependencies.ts:325-329 | legacy sources lie under the platform's state, and that under the marker's |
| DependencyState.LayersRenormalise | apps/cli/src/lib/dependency-state.ts:68-73 | a state of two layers survives being read back as one if and only if the layers agree in shape over the base, ports apart |
| DependencyState.LayerRenormalises | apps/cli/src/lib/dependency-state.ts:68-73 | a state of one layer always survives |
| DependencyState.LayerCovers | apps/cli/src/lib/dependency-state.ts:68-73 | a layer's values are all there in the result, its ports exactly |
| DependencyState.WithTcpPortPool | apps/cli/src/lib/dependency-state.ts:75-84 | the merged state with the pool's ports, of any two numbers, in place of all others |
| DependencyState.PoolSurvives | apps/cli/src/lib/dependency-state.ts:75-84 | a configured pool of any two numbers survives being read back, and its ports are exactly the pool's |
| InstallState.ParseUpcloudNodeGroups | apps/cli/src/lib/install-state.ts:439-452 | the valid groups in order, or nothing if there is none |
| InstallState.DecodedIsWellFormed | apps/cli/src/lib/install-state.ts:106-155 | whatever a marker holds, what is read from it is well formed |
| InstallState.EncodeDecode | apps/cli/src/lib/install-state.ts:80-155 | a well-formed state written and read again keeps every field but those the dependency record replaces |
| InstallState.WrittenKeys | apps/cli/src/lib/install-state.ts:80-104 | every field is written under its own key, texts as they are, flags and modes by name, the rest as JSON |
| InstallState.ReadKeys | apps/cli/src/lib/install-state.ts:106-155 | every field is read from its own key |
| InstallState.ReadRecords | apps/cli/src/lib/install-state.ts:397-437 | what is read of the JSON texts, and when |
| InstallState.ReadNothing | apps/cli/src/lib/install-state.ts:397-437 | a text that is missing, broken or no record gives nothing |
| InstallState.ReadGroup | apps/cli/src/lib/install-state.ts:439-452 | a node group is read exactly if its name is not blank and its bounds are whole numbers in order |
| InstallState.GroupsInOrder | apps/cli/src/lib/install-state.ts:439-452 | the groups that can be read, in order |
| InstallState.MigrationIsLossless | apps/cli/src/lib/install-state.ts:80-155 | reading a marker of any age, writing it and reading it again gives the same dependencies, if and only if its legacy values and its record agree in shape over the base |
| InstallState.MigrationCanChange | apps/cli/src/lib/install-state.ts:80-155 | a concrete marker whose dependencies migration changes |
| InstallState.MigrationKeepsTheRest | apps/cli/src/lib/install-state.ts:80-155 | and all its other fields, for every marker |
| InstallResolve.MarkerAuthority | apps/cli/src/lib/install-state.ts:183-281 | a well-formed state sent through the marker wins over the live release in every field it has but the three that the dependency record has taken over; the record's names win, its Helm values are covered, its ports exact; only an explicit override changes the image registry |
| InstallResolve.MarkerFieldsWin | apps/cli/src/lib/install-state.ts:201-281 | the plain fields of that, without the three, and when the resolution succeeds |
| InstallResolve.MarkerDependenciesWin | apps/cli/src/lib/install-state.ts:195-200 | the dependency part of that, over any legacy source |
| InstallResolve.SupersededFieldsAreDropped | apps/cli/src/lib/install-state.ts:80-104 | class name, namespace and Helm values of the ingress controller have no part in what is written |
| InstallResolve.SupersededFieldsIff | apps/cli/src/lib/install-state.ts:195-266 | each of the three comes back if and only if it is what the dependency record says, over the live release and the defaults, or without a record what the live release says over the defaults; Helm values if and only if they agree with these sources at every path |
| ValuePaths.BuiltIff | apps/cli/src/lib/dependency-state.ts:44-73 | values are those of some layers if and only if at every path they say what the topmost layer says that speaks of it and is not cut off by one above |
| ValuePaths.MergeAt | apps/cli/src/lib/object-path.ts:7-16 | what a merge holds at a path: what the later record says, and what the earlier one says only where the later says nothing and has no value in the way |
| ValuePaths.CoversByPath | apps/cli/src/lib/dependencies.ts:390-399 | without records in arrays, nothing has drifted if and only if the live values say the same at every path at which the wanted ones say anything |
| ValuePaths.CoversItems | apps/cli/src/lib/dependencies.ts:395-397 | arrays are compared item by item and must be as long |
| ValuePaths.AtIsHeld | apps/cli/src/lib/object-path.ts:18-25 | the walk over a path finds what is held there |
| ValuePaths.HelmValuesSay | apps/cli/src/lib/traefik.ts:48-55 | at every path outside the ports the configuration decides, then the defaults, then the existing release |
| ValuePaths.PortsSay | apps/cli/src/lib/traefik.ts:48-55 | the ports are the configured ones, or without any the default ones over those of the release |
| ValuePaths.DefaultValuesAre | apps/cli/src/lib/traefik.ts:26-36 | the defaults |
| ValuePaths.PortEntryIs | apps/cli/src/lib/traefik.ts:18-21 | the entry and the key of one port |
| ValuePaths.LayersInOrder | apps/cli/src/lib/dependency-state.ts:44-66 | every name is that of the topmost input that has one, and the other records are joined key by key |
| ValuePaths.LayeredValuesSay | apps/cli/src/lib/dependency-state.ts:68-73 | and Helm values are decided at every path by the topmost input that says something |
| InstallResolve.RecordedValuesIff | apps/cli/src/lib/install-state.ts:195-266 | if they are those of the record over the defaults, they come back if and only if the live release holds no value beyond them, ports apart |
| InstallResolve.ClassNameIsForgotten | apps/cli/src/lib/install-state.ts:80-104 | a concrete state whose class name comes back as the default one |
| InstallResolve.OldMarkerNamesIff | apps/cli/src/lib/install-state.ts:297-319 | a class name or namespace read from an older marker's own key is kept if and only if the marker's dependency record names no other |
| InstallResolve.EmptyRegistryHostIsDropped | apps/cli/src/lib/install-state.ts:87 | the exception: an empty registry host is not written |
| InstallResolve.PodSecurityOffSurvives | apps/cli/src/lib/install-state.ts:248-249 | an empty pod security level survives a release that says otherwise |
| ResolutionOrder.FieldsInOrder | apps/cli/src/lib/install-state.ts:183-281 | for every marker, release and cluster: there is no domain or no image registry exactly if none of their sources has one, and every plain field is that of the first source that has a value, in order, or the documented default |
| ResolutionOrder.ControllerInOrder | apps/cli/src/lib/install-state.ts:297-319 | the same for the class name, the namespace and the Helm values of the ingress controller without a dependency record |
| ResolutionOrder.RepositoryIsRead | apps/cli/src/lib/install-state.ts:375-381 | the registry of a repository is what stands before the name of the workload, or before the last slash |
| ResolutionOrder.RegistryIsUnique | apps/cli/src/lib/install-state.ts:375-381 | and there is only one such text |
| ServiceReferences.InvalidReferences | apps/backend/src/shared/service-references.ts:37-45 | the issues in order; there are none if and only if every reference names a known service and property |
| ServiceReferences.RenderScan | apps/backend/src/shared/service-references.ts:30-35 | scanning loses nothing: the pieces put together are the text |
| ServiceReferences.RenameMapsPieces | apps/backend/src/shared/service-references.ts:47-49 | a rename replaces exactly the tokens that name the service and leaves every other piece |
| ServiceReferences.CanonicalIsToken | apps/backend/src/shared/service-references.ts:47-49 | a rewritten token is scanned as that token, whatever follows |
| ServiceReferences.TokenIs | apps/backend/src/shared/service-references.ts:6 | a token goes from its opening to the first closing braces, if what is between them has no line break but at its edges |
| ServiceReferences.NoToken | apps/backend/src/shared/service-references.ts:6 | without an opening or without closing braces there is no token |
| ServiceReferences.ScanIsLeftmost | apps/backend/src/shared/service-references.ts:30-35 | a text is scanned from the left, and a piece is a token exactly if one starts there |
| ServiceReferences.ReferenceIs | apps/backend/src/shared/service-references.ts:21-27 | a token refers to the name up to the last dot behind the namespace, and to the property behind it |
| ServiceReferences.CanonicalIs | apps/backend/src/shared/service-references.ts:47-49 | what a rename writes |
| ServiceReferences.RenamedPieceIs | apps/backend/src/shared/service-references.ts:47-49 | exactly the tokens of the renamed service are rewritten |
| ServiceReferences.IssueTells | apps/backend/src/shared/service-references.ts:37-45 | an issue names a service that does not exist, or else a property that is none of the five |
| ServiceReferences.IssuesInOrder | apps/backend/src/shared/service-references.ts:37-45 | issues come in the order of the tokens |
| ServiceReferences.ReferencesInOrder | apps/backend/src/shared/service-references.ts:30-35 | and so do references |
| ServiceReferences.RenameRescansIff | apps/backend/src/shared/service-references.ts:30-49 | for all texts and names, the renamed text is scanned as the renamed pieces if and only if the text is harmless and the new name, where it is written, can be referred to |
| ServiceReferences.RenamePreservesReferences | apps/backend/src/shared/service-references.ts:22-49 | in a one-line text with valid references, renaming to a name without closing braces and line terminators yields exactly the old references with the name replaced, all valid, every other piece unchanged |
| ServiceReferences.RenameCanLoseReference | apps/backend/src/shared/service-references.ts:47-49 | a concrete text of two lines whose one reference is gone after a rename, to whatever name |
| ConfigValues.MapConfigValues | apps/backend/src/shared/service-references.ts:53-76 | every text is mapped, nothing else changes, unchanged ciphertexts stay the same, and the configuration itself comes back exactly if no text changes |
| ConfigValues.TextsAre | apps/backend/src/shared/service-references.ts:53-76 | the texts of a configuration are the values of its environment and what its secrets and files decrypt to |
| ConfigValues.RenameInConfig | apps/backend/src/modules/services/services.service.ts:111-113 | a rename reaches the references of every text, encrypted or not, and keeps them valid |
| Dotenv.ParseDotenv | apps/console/lib/parse-dotenv.ts:22-46 | the two loops compute the recursive reading of the lines |
| Dotenv.TakeQuoted | apps/console/lib/parse-dotenv.ts:33-38 | the inner loop takes in lines until the quote closes or the text ends |
| Dotenv.UnescapeEscape | apps/console/lib/parse-dotenv.ts:3-16 | unescaping undoes escaping, whatever follows |
| Dotenv.EscapedQuotesAreProtected | apps/console/lib/parse-dotenv.ts:15-35 | every quote of an escaped value stands behind a backslash |
| Dotenv.QuotedValue | apps/console/lib/parse-dotenv.ts:33-39 | a quoted value is read back if and only if it does not end in a backslash |
| Dotenv.PrintedLine | apps/console/lib/parse-dotenv.ts:11-19 | every printed entry is one line, and the line pattern reads its key and value part unless it holds a separator |
| Dotenv.DotenvRoundTrip | apps/console/lib/parse-dotenv.ts:11-46 | distinct identifier keys: reading what was printed gives the same entries in order, if and only if no value ends in a backslash or holds U+2028 or U+2029 |
| Dotenv.LineIsRead | apps/console/lib/parse-dotenv.ts:1-27 | an assignment is read with any white space around its parts and an optional export, which may also be the key |
| Dotenv.KeysAre | apps/console/lib/parse-dotenv.ts:1 | keys are letters, digits and underscores, without a digit in front |
| Dotenv.MatchIsLine | apps/console/lib/parse-dotenv.ts:1-27 | and nothing else is an assignment |
| Dotenv.AssignmentIsParsed | apps/console/lib/parse-dotenv.ts:22-46 | any unquoted assignment with a comment is one entry with the value before the comment |
| Dotenv.UnquotedValue | apps/console/lib/parse-dotenv.ts:40-41 | an unquoted value is the text before a comment without the white space at its ends |
| Dotenv.CommentIsCut | apps/console/lib/parse-dotenv.ts:41 | a comment starts at the first hash sign behind white space, which goes with it |
| Dotenv.NothingIsCut | apps/console/lib/parse-dotenv.ts:41 | without one nothing is cut |
| Dotenv.QuotedSpans | apps/console/lib/parse-dotenv.ts:33-38 | a quoted value ends at the first closing quote, on the first line that has one, and without any at the end of the text |
| Dotenv.EscapesAre | apps/console/lib/parse-dotenv.ts:3-15 | the five escapes, written and read |
| Dotenv.OthersAreLiteral | apps/console/lib/parse-dotenv.ts:3-15 | all other characters are written and read as they are |
| Dotenv.PrintedPlain | apps/console/lib/parse-dotenv.ts:8-19 | a value is printed without quotes if and only if it has none of seven characters and no white space at its ends |
| Dotenv.NewlinesAre | apps/console/lib/parse-dotenv.ts:23 | line breaks of all three kinds become one |
| Dotenv.SetReplaces | apps/console/lib/parse-dotenv.ts:24-45 | the last value of a key wins, in the place of the first |
| Versions.ComparePrerelease | apps/console/lib/versions.ts:19-40 | the sign is decided by the first identifiers that differ as text |
| Versions.CompareVersions | apps/console/lib/versions.ts:42-53 | the sign is that of the program's order; nothing for texts that are no versions |
| Versions.IsNewerVersion | apps/console/lib/versions.ts:55-59 | newer means both are versions and the first is above the second |
| Versions.ComparisonIsPrecedenceIff | apps/console/lib/versions.ts:19-53 | the program's order is the precedence of section 11 of Semantic Versioning 2.0.0 if and only if no two texts of one number mask a later difference |
| Versions.ComparisonIsPrecedence | apps/console/lib/versions.ts:19-53 | it is for all versions that follow section 9 |
| Versions.LeadingZeroMasks | apps/console/lib/versions.ts:29-33 | a concrete pair for which it is not |
| Versions.PrecedenceReverses | apps/console/lib/versions.ts:42-53 | the precedence is antisymmetric in sign |
| Versions.PrecedenceTransitive | apps/console/lib/versions.ts:42-53 | and transitive, across numeric and alphanumeric identifiers and different lengths |
| Versions.PrecedenceZeroIffEqual | apps/console/lib/versions.ts:42-53 | and zero exactly for versions that are equal up to build metadata |
| Versions.NewerIsStrictOrder | apps/console/lib/versions.ts:55-59 | being newer is irreflexive, asymmetric and transitive |
| Versions.VersionIsRead | apps/console/lib/versions.ts:8-17 | an optional v, three numbers, a prerelease and build metadata are read as what they are |
| Versions.ParsedIsVersion | apps/console/lib/versions.ts:8-17 | and nothing else is a version |
| Versions.PrecedenceRules | apps/console/lib/versions.ts:19-53 | the rules of section 11 of Semantic Versioning 2.0.0 one by one |
| Versions.NewerIsPrecedence | apps/console/lib/versions.ts:55-59 | for conforming texts newer means above in that precedence |
| DefaultDomain.SanitizeIsIdempotent | packages/db/src/default-domain.ts:39-46 | sanitizing twice is sanitizing once, and changes nothing exactly for clean labels |
| DefaultDomain.LabelIsWords | packages/db/src/default-domain.ts:39-46 | a label is made of the stretches of letters and digits of the name in lower case, with single dashes between them, or it is app |
| DefaultDomain.LowerCase | packages/db/src/default-domain.ts:41 | what lower case changes, as far as label characters go |
| DefaultDomain.ShortIdOfUuid | packages/db/src/default-domain.ts:48-50 | the short id of a UUID is its first group |
| DefaultDomain.ClampIs | packages/db/src/default-domain.ts:68-77 | a longer label keeps its front up to trailing dashes, and its id, and uses the 63 characters |
| DefaultDomain.IdSuffixIs | packages/db/src/default-domain.ts:70 | the id at the end is a dash and eight hexadecimal digits |
| DefaultDomain.DefaultLabel | packages/db/src/default-domain.ts:87-90 | with the default template the label is that of the name, a dash and the short id, clamped |
| DefaultDomain.ClampIsValid | packages/db/src/default-domain.ts:68-77 | clamping a clean label gives a valid one of at most 63 characters and keeps an id suffix |
| DefaultDomain.HostIsValid | packages/db/src/default-domain.ts:79-96 | every host is a valid label, a dot and the base within 253 characters, and there is one unless the base is blank or the name too long |
| DefaultDomain.LabelKeepsId | packages/db/src/default-domain.ts:87-90 | with the default template the label ends in the short id, even when it is clamped |
| DefaultDomain.HostsDiffer | packages/db/src/default-domain.ts:79-96 | with the default template services with different short ids get different hosts, even when clamped |

## Left out

- React components, NestJS wiring, prompts, capacity sums, formatting helpers and the other wide and shallow parts: they hold no property worth stating.
- The build server beyond its lease rules, and real docker, helm, Kubernetes, fetch and timers: they are arbitrary answers here.
- `redactBuildLog` is not part of this model: log lines and errors are taken as they are after it.
- Timestamps, attempts and the redaction list of a task: nothing that is proved depends on them.
- Clock skew between agents and the server, and event loop delays beyond a second: one clock, and watchdogs that tick at least once a second, are assumed.
- `Leases` does not order the steps of one heartbeat: any order is allowed, which includes the program's.
- A stop signal during the claim loop does not prevent one more start; nothing is claimed about it, and the machine of `Leases` allows it.
- UTF-8 sequences cut by a chunk boundary: chunks are texts here.
- The arguments of the docker commands, the packing of files, `memoryLimitBytes` and `cleanupOrphans`: commands are steps that succeed or fail.
- When an abort reaches a docker command that is already running: a command either ends before the signal or fails.
- VolumeReclaim.Api.PatchPolicyToDelete: the policy patch names no version, so it applies to whatever has the listed name at that moment; no claim is made about that volume's current claim, because the program does not check it.
- Pages of a list are cut from one consistent list, and an expired continue token is a failing page.
- The end of a volume after its finalizers are gone is left to the other actors.
- Two registry runs at the same time, and `createRegistryPushSecret` in between, can leave a push secret that does not match: only deletions interfere in `RegistrySecrets`.
- `LogDelivery` speaks of what a reader is told as long as a notice that counts all lines fits into a message, which it does below 10^8125 lines.
- The location that `mapConfigValues` passes to its callback.
- The 72-byte limit of bcrypt, and htpasswd contents other than a hash of this program's.
- Labels, annotations and types of secrets; the namespace is fixed.
- JSON objects have no inherited keys and no `__proto__`; numbers are reals; printing and parsing JSON are inverse.
- The `dependencies_json` record is taken to have the types its interface declares, as the program does.
- `readLiveImageRegistry`, `readReleaseValues` and `readLivePlatformIngress` are parameters of `InstallResolve.Resolve`, and so is the host name parsed from a URL.
- `packages/kube` beyond the pool normaliser in `packages/kube/src/platform/settings/tcp-port-pool.ts`.
- The `ensure`, `check` and `wait` functions of `dependencies.ts` and `buildUpdateDependencyValues`: loops over cluster calls without a property of their own.
- `mapReferences` hands whole tokens to its callback; `$` patterns in replacements are not interpreted there, and in `DefaultDomain` they cannot occur in names that were sanitized, and are ignored in service ids.
- The console's own reference pattern does not split texts as the backend does, so no agreement is claimed.
- Characters outside the basic plane and case folding beyond the letters a label keeps: strings are sequences of characters.
- Version numbers of 2^53 and more, where the program's numbers lose precision: numbers are exact here.
- `effectiveBase`, `sslipBaseFromIp` and the settings fallbacks of `default-domain.ts`: single expressions.
