# Kopia operator: verified model

The operator keeps KopiaBackup and KopiaRepository objects in step with a Kubernetes API server and
with a Kopia server reached by exec. Any call can fail, with or without having taken effect, the
operator can crash after any call, and users act between any two calls. This project models that as
state machines and proves what every run keeps, and it proves the string algorithms the operator
relies on: shell quoting, log redaction, generated passwords and generated names.

`dafny verify dfyconfig.toml` checks the whole project.

| module | models |
|---|---|
| `ApiServer`, `Controllers` | one KopiaBackup key under optimistic locking, the PVC watcher and the backup reconciler as a step machine |
| `CopyDiscipline`, `WatcherGuarantees`, `ReadyCondition`, `Finalizers` | what all runs of that machine keep |
| `Orphans`, `Scenarios` | which users the servers hold, and runs that refute the naive forms |
| `Reconcilers` | the two controllers as the source writes them, each method proved to be a run of the machine |
| `Credentials`, `Tls` | EnsureUser and EnsureTLSSecret as machines, and as classes whose methods are runs of them |
| `Jobs`, `Drift`, `RepositoryPass` | the desired CronJob, updates under server-side defaulting, the repository reconciler |
| `Repositories`, `Placement` | repository lookup, the pod a backup follows, the watches that wake it |
| `Shell`, `Quoting`, `ServerScript`, `SftpScript` | a reader for the POSIX shell and the generated scripts |
| `Redaction`, `Passwords`, `Naming`, `Resources`, `Text`, `Options` | redaction, passwords, names, shared values |

How to read the machines: an event carries the outcome of the call it stands for, an event that is
not possible in a state changes nothing, and `Run` applies a list of events. The classes keep a ghost
`trace` and prove that their state is the run of it, so every theorem over all runs applies to them;
the outcomes of their calls come from a given function of the step number, so a method cannot choose
them. In `Controllers`, `pass`, `passes`, `facts`, `retired` and the status fields `readyBy` and
`cronBy` are the model's own records of who did what; the controllers never read them.

Naive statements that the code does not meet, each with a run that refutes it and the exact condition:

- Ready=True does not imply CronJobCreated=True (`ReadyDespiteCronFailure`, `ReadyBesideCronIff`).
- RepositoryReady=True does not imply a working server (`StaleReady`, `StaleReadyIff`).
- A failed annotation patch costs more than one redundant command once an earlier password returns
  (`RestoredPasswordMissed`, `ChangedPasswordHeldIff`); the comment at internal/kopia/user/manager.go:185-187 says otherwise.
- Moving a backup to another server is not noticed by the credential sync once its annotation fits (`MoveNoticedIff`).
- A server user can outlive its backup, even when the delete command ran under its very name, and need not when none
  ran for its object (`OrphanedUser`, `HostnameChanged`, `MovedBackup`, `ForeignUserLeft`, `SuccessorCleansUp`, `OutlivesIff`).
- The watcher's delete can hit an unmanaged backup that replaced the one it read (`ReplacementDeleted`, `SparesUnmanagedIff`).
- Idempotent defaulting alone does not make a second CronJob update a no-op (`IdempotenceNotEnough`, `SecondCallQuietIff`).
- Behind an API server that fills in nothing, a changed Service port is dropped silently (`PortChangeIgnored`, `ServiceAppliesIff`).
- Not every pod event that gives a claim its node wakes the backup, should some of the claim's running users have a
  node and others none (`DeletionUnnoticed`, `GainsNoticedIff`).
- Two backups in different namespaces can share one server user (`SharedUserExample`, `UsernamesCollideIff`).
- Values of the SFTP credentials secret reach the command line unquoted (`BlankSplits`, `UnquotedSurvivesIff`).

Where code and documentation disagree, the model follows the code: the API documents a default of 3
for the backoff limit (api/backup/v1alpha1/kopiabackup_types.go:120-125), the builder falls back to 5.

## Model

| member | source | states |
|---|---|---|
| `CopyDiscipline.CopyRun` | internal/controller/pvcwatcher/reconciler.go:56-186 | in every interleaving of watcher, reconciler, users and crashes, a copy that passes the version check equals the stored object, and a copy of the same object is an earlier state of it |
| `CopyDiscipline.FlagsLast` | internal/controller/pvcwatcher/reconciler.go:94-108 | a stored autoCreated flag and a deletion mark last for the object's life; the generation never falls and fixes the spec |
| `CopyDiscipline.WatcherKeepsOthersFields` | internal/controller/pvcwatcher/reconciler.go:114-186 | a watcher step changes no field but schedule, autoCreated and the deletion mark, whatever happened since it read |
| `CopyDiscipline.ReconcilerKeepsOthersFields` | internal/controller/kopiabackup/reconciler.go:131-140 | a reconciler step changes no field but the finalizer, the secret name and its own status fields |
| `WatcherGuarantees.SparesUnmanagedIff` | internal/controller/pvcwatcher/reconciler.go:81-108 | in every run, a watcher step changes a backup neither marked nor controlled by the PVC exactly when it is a delete that reaches the server and the object is not already being held back by its finalizer; and such a delete meets only an object changed since it was read |
| `WatcherGuarantees.ReplacementDeleted` | internal/controller/pvcwatcher/reconciler.go:82-91 | that exception is reachable: an unmanaged replacement is deleted by name |
| `WatcherGuarantees.PassReachesTarget` | internal/controller/pvcwatcher/reconciler.go:56-229 | one undisturbed pass reaches the target said of the store alone: the schedule is the annotation of the PVC if it has one and the default of the repository if not, the flag is set, a new backup is for that PVC and the labelled repository, unsuspended and without a secret; or deletion is under way |
| `WatcherGuarantees.PassIdempotent` | internal/controller/pvcwatcher/reconciler.go:114-138 | the next undisturbed pass changes nothing stored |
| `WatcherGuarantees.LostFlagRestored` | internal/controller/pvcwatcher/reconciler.go:95-103 | a flag lost after creation is restored by an undisturbed pass |
| `WatcherGuarantees.RelabelKeepsRepository` | internal/controller/pvcwatcher/reconciler.go:129-136 | a new repository label never changes spec.repository of an existing backup |
| `Reconcilers.Operator.ReconcilePvc` | internal/controller/pvcwatcher/reconciler.go:56-229 | under interference the pass runs to its end, fails exactly when a call failed, and otherwise has achieved what its replies ask for: annotation or default stored as schedule, the new backup with all its fields, or the deletion, with exactly the number of write calls they ask for |
| `Reconcilers.Operator.AdoptAndSync` | internal/controller/pvcwatcher/reconciler.go:94-108 | a managed backup ends with the flag and with the annotation or else the default as its schedule; an unmanaged one leaves the whole world as it was |
| `Reconcilers.Operator.SyncSchedule` | internal/controller/pvcwatcher/reconciler.go:115-138 | success means the annotation, or the default without one, is stored as schedule on the same object, all else of the spec kept; without a repository or a difference there is no write |
| `Reconcilers.Operator.CreateBackupForPVC` | internal/controller/pvcwatcher/reconciler.go:141-186 | success means a spec for that PVC, repository and schedule, unsuspended and without a secret, is stored with owner and flag, in two writes; an object that exists already is no error, and without a repository there is no write |
| `ReadyCondition.ReadyMeans` | internal/controller/kopiabackup/reconciler.go:118-164 | over every run, the very pass that set a stored Ready=True worked on that object at its observed generation and had found PVC and repository, ensured the user exactly in server mode, written the ConfigMap exactly in direct mode on a filesystem, brought the CronJob up to date and seen a node and an unsuspended spec; at the current generation that spec is the stored one |
| `ReadyCondition.LastWriter` | internal/controller/kopiabackup/reconciler.go:131-140 | in every run, a step that changes the stored Ready or CronJobCreated condition is the status write of the current pass and leaves that pass's number with it |
| `ReadyCondition.ReadyBesideCronIff` | internal/controller/kopiabackup/reconciler.go:288-318 | over every run, CronJobCreated beside a stored Ready=True is not true exactly when the CronJob call of the pass that set it failed, and that pass is then later than the complete one behind Ready |
| `ReadyCondition.UpdatesKeepStatus` | internal/controller/kopiabackup/reconciler.go:196-201 | the finalizer and spec Updates hand back exactly the status held in memory |
| `ReadyCondition.CronFailureKeepsReadyIff` | internal/controller/kopiabackup/reconciler.go:288-318 | a pass leaves Ready true beside a CronJobCreated that is not true exactly when the CronJob call fails on a backup that was Ready |
| `ReadyCondition.ReadyDespiteCronFailure` | internal/controller/kopiabackup/reconciler.go:290-295 | that state is reachable for every unsuspended direct-mode backup |
| `Finalizers.FinalizerOnlyAfterDelete` | internal/controller/kopiabackup/reconciler.go:170-204 | in every run where the secret is recorded by deletion time, the PVC name stays, lookups resolve to one repository in server mode and the secret, when present, holds the computed name: once the finalizer is gone, unless a user stripped it, the delete command for the user that creation uses has run on that repository's server, every command for the object named that user and server, and no create follows |
| `Finalizers.RemovalFindsSecretGone` | internal/kopia/user/manager.go:205-232 | at the step that takes the finalizer off, the delete command has run and, unless somebody wrote it anew since the operator looked, the secret is gone |
| `Finalizers.GovernedDeletion` | internal/controller/kopiabackup/reconciler.go:173-193 | runs that meet the conditions of these theorems, create the user, delete it and take the finalizer off exist, for every spec that names its secret |
| `Finalizers.NoCreateAfterDelete` | internal/controller/kopiabackup/reconciler.go:173-194 | over every run, without any assumption, no create command for a backup follows a delete command for it |
| `Finalizers.HeldOrRetired` | internal/controller/kopiabackup/reconciler.go:187-191 | an object that once had the finalizer keeps it until the reconciler removes it or a user strips it by hand |
| `Orphans.DeletesUserIff` | internal/controller/kopiabackup/reconciler.go:176-186 | over the whole of every run, a user has been deleted for an object exactly when some cleanup of it ran its command: the spec it read names the secret, its lookup gave a server-mode repository, and the name computed from that spec and hostname, on that repository's server, is that user |
| `Orphans.OutlivesIff` | internal/kopia/user/manager.go:205-232 | over the whole of every run, the last command for a user on a server, by whatever object, is a create exactly when some EnsureUser ran its create command there and since then no cleanup of any object looked that repository up, computed that name and ran its command |
| `Orphans.RemovalFindsUserGone` | internal/controller/kopiabackup/reconciler.go:173-193 | under the conditions of FinalizerOnlyAfterDelete, at the step that takes the finalizer off, no user ever created for the object is left on the server it was created on |
| `Orphans.MovedBackup` | internal/kopia/user/manager.go:280-338 | a backup moved to another repository of the same hostname: the delete command runs under the very name, on the other server, and the user stays on the first |
| `Orphans.SuccessorCleansUp` | internal/kopia/user/manager.go:205-232 | a user orphaned by one object is gone after the cleanup of a successor, with no delete command for the first object |
| `Orphans.PassDeletesIff` | internal/controller/kopiabackup/reconciler.go:176-186 | what the pass that takes the finalizer off has deleted itself, from the spec it read and its lookup |
| `Orphans.HostnameChanged` | internal/kopia/user/manager.go:212-217 | a hostname changed between creation and deletion leaves the user behind with nothing skipped |
| `Orphans.ForeignUserLeft` | internal/kopia/user/manager.go:148-168 | a secret that names another user: that user is created and outlives the backup |
| `Orphans.OrphanedUser` | internal/controller/kopiabackup/reconciler.go:259-265 | a user created before the spec recorded its secret is left on the server after deletion |
| `Reconcilers.Operator.ReconcileBackup` | internal/controller/kopiabackup/reconciler.go:118-164 | under interference the pass runs to its end and fails only if a call failed; success means the deleted object is gone, or that the stored conditions and fields are those of the phase its calls reached, the CronJob being built from the stored spec and the ConfigMap call having succeeded where direct mode needs it; a Ready=True it leaves was set by a complete pass |
| `Reconcilers.Operator.HandleFinalizer` | internal/controller/kopiabackup/reconciler.go:170-204 | unless done, the pass goes on with the same object, spec and status, now with the finalizer and not being deleted; an object being deleted without the finalizer is done with nothing changed |
| `Reconcilers.Operator.Cleanup` | internal/controller/kopiabackup/reconciler.go:173-193 | success means the object is gone and retired, and in every run that gives the cleanup what it needs, that its user is deleted and never created again |
| `Reconcilers.Operator.DeleteUser` | internal/kopia/user/manager.go:205-232 | success means the command for the computed name has run and the secret is absent; any failure ends the pass with the finalizer in place |
| `Reconcilers.Operator.ValidateDependencies` | internal/controller/kopiabackup/reconciler.go:210-233 | without PVC or repository Ready is false in memory with the matching reason and generation, and only the status is left to write; otherwise the repository is the one looked up |
| `Reconcilers.Operator.ReconcileServerCredentials` | internal/controller/kopiabackup/reconciler.go:237-273 | unless done, the spec names the secret and the status is the previous one plus user name and connected; when EnsureUser fails, the pass ends without an error exactly when the server was not ready |
| `Reconcilers.Operator.ReconcileBackupResources` | internal/controller/kopiabackup/reconciler.go:276-318 | the conditions set in memory are exactly those the status write will carry; when the CronJob call fails, that is CronJobCreated=False alone |
| `Reconcilers.Operator.WriteStatus` | internal/controller/kopiabackup/reconciler.go:131-140 | on success exactly the status held in memory is stored on the same object |
| `Credentials.MarkTellsTruth` | internal/kopia/user/manager.go:80-202 | in every allowed interleaving of steps, failures, crashes and edits, an annotation equal to the fingerprint of the stored credentials means the server holds exactly them |
| `Credentials.SuccessMeansHeld` | internal/kopia/user/manager.go:80-176 | a call that returned without error returned credentials the server holds |
| `Credentials.ServerAccounted` | internal/kopia/user/manager.go:80-176 | over every run, a user with that password is on the server only if it was at first, others put it there, the pair was known before or stored by others, or the name is the computed one and the password one that a call generated |
| `Credentials.NoReuseAllowed` | internal/kopia/user/manager.go:159-175 | runs in which others reuse no credentials and write no annotation of their own are allowed runs |
| `Credentials.CallHoldsIff` | internal/kopia/user/manager.go:148-176 | after an undisturbed call the server holds the stored credentials exactly when the annotation did not fit or it held them before |
| `Credentials.ChangedPasswordHeldIff` | internal/kopia/user/manager.go:185-202 | at any point of an allowed run where a call has returned the stored credentials, a changed password reaches the server with the next undisturbed call exactly when it is the old one or the annotation left from before is not its fingerprint |
| `Credentials.ExecsBounded` | internal/kopia/user/manager.go:159-175 | creation commands never exceed one plus the number of writes by others, failed commands, failed patches and crashes |
| `Credentials.QuietRunsNothing` | internal/kopia/user/manager.go:159-167 | once in step and undisturbed, no command is run again however often EnsureUser is called |
| `Credentials.RestoredPasswordMissed` | internal/kopia/user/manager.go:185-202 | after a failed patch, bringing back an earlier password leaves the server with another one and a matching annotation |
| `Credentials.MoveNoticedIff` | internal/kopia/user/manager.go:159-167 | after a move to another server an undisturbed call succeeds, and leaves the credentials there exactly when the annotation did not fit or that server held them; a fitting one leaves the server untouched |
| `Credentials.FingerprintInjective` | internal/kopia/user/manager.go:178-183 | for a collision-free digest and NUL-free user names, equal fingerprints mean equal credentials |
| `Credentials.NulConfuses` | internal/kopia/user/manager.go:178-183 | with NUL in a user name two different pairs share a fingerprint under every digest |
| `Credentials.UserManager.EnsureUser` | internal/kopia/user/manager.go:80-176 | under interference, success leaves the returned credentials on the server, a call runs at most one creation command, and it fails only over a failed call, a crash, a write by others or a secret with a key missing. If nobody writes the secret meanwhile: an existing one keeps its credentials and success returns them; without one, success has stored and returned the computed name with a password generated in this call; a failed call takes the secret it created away again unless that deletion fails; the mark fits unless the patch failed |
| `Credentials.UserManager.ReuseSecret` | internal/kopia/user/manager.go:148-176 | a secret whose annotation fits makes the call succeed with nothing changed |
| `Credentials.UserManager.CreateUserOnServer` | internal/kopia/user/manager.go:248-279 | not-ready means no command was run or its container was missing, any other error that a command failed otherwise; the fresh secret goes with the failure, an existing one stays |
| `Credentials.UserManager.MarkUserSynced` | internal/kopia/user/manager.go:188-202 | the patch may fail unreported and touches the mark alone; the credentials are held all the same |
| `Tls.AutoRun` | internal/kopia/server/manager.go:622-731 | over every run on a secret nobody else touches, the stored fingerprint key is that of the stored certificate and consecutive certificates are spaced |
| `Tls.SuccessLeavesValidCert` | internal/kopia/server/manager.go:622-731 | every successful call leaves a certificate with its key and the returned fingerprint, made for 365 days at the last generation and with at least 30 days left |
| `Tls.SpacedApart` | internal/kopia/server/manager.go:748-765 | any two stored certificates are at least 335 days apart per step between them, in whole seconds |
| `Tls.FewRotations` | internal/kopia/server/manager.go:748-780 | a span sees at most one certificate more than it has periods of 335 days, failed calls and crashes included |
| `Tls.UserRun` | internal/kopia/server/manager.go:632-653 | a user-provided secret is never written or deleted by the operator |
| `Tls.ServerManager.EnsureTLSSecret` | internal/kopia/server/manager.go:622-731 | under interference, success means the secret holds a key and a certificate with the returned fingerprint, automatic ones with 30 days left; an automatic secret fails only if a client call fails or the operator crashes, a user-provided one that nobody writes exactly when the read fails or key or certificate is missing or does not parse |
| `RepositoryPass.RepositoryReconciler.Reconcile` | internal/controller/kopiarepository/reconciler.go:64-206 | from the outcomes of its calls: the phase, and every field of the stored status, serverReady and the fingerprint of the certificate in the secret included; early stops leave Deployment, Service or certificate untouched; stored, a pass leaves the repository ready exactly when all its calls succeeded, or when it was before and certificate, Deployment or Service failed |
| `RepositoryPass.ReadyAfterPassesIff` | internal/controller/kopiarepository/reconciler.go:84-206 | after any number of passes RepositoryReady is true exactly when some stored pass found all in order and every stored pass since stopped at certificate, Deployment or Service, or it was true at first and none got further |
| `RepositoryPass.StaleReadyIff` | internal/controller/kopiarepository/reconciler.go:109-148 | over every run of passes in server mode, RepositoryReady stands beside a ServerReady that is not true exactly when a stored pass in order was followed by a stored pass that stopped early and by none that got further |
| `RepositoryPass.StaleReady` | internal/controller/kopiarepository/reconciler.go:109-121 | two passes of the reconciler that reach this state: all in order, then a failed read of the certificate |
| `RepositoryPass.FingerprintHandOver` | internal/controller/kopiarepository/reconciler.go:110-122 | after a repository pass and a whole backup pass under interference, the CronJob was built from a repository that shows the fingerprint of the certificate in the secret |
| `RepositoryPass.FingerprintInJob` | internal/controller/kopiabackup/builder.go:341-346 | the CronJob stored for such inputs shows its container exactly that fingerprint as KOPIA_TLS_FINGERPRINT |
| `RepositoryPass.CertificateToJob` | internal/controller/kopiabackup/builder.go:341-346 | all the way: after a repository pass, a backup pass and its CronJob call, KOPIA_TLS_FINGERPRINT in the stored CronJob is the fingerprint of the certificate in the secret |
| `Jobs.BuildServerModeConfig` | internal/controller/kopiabackup/builder.go:315-380 | effective values: fingerprint exactly when known, password from the user's secret, cache, configuration and logs below the mounted cache; mounts stay matched by unique volumes |
| `Jobs.BuildDirectModeConfig` | internal/controller/kopiabackup/builder.go:383-481 | only the cache directory changes in the environment; the NFS export is mounted at the repository path, or the SFTP credentials and scratch space; mounts stay matched by unique volumes; the repository's ConfigMap is mounted exactly on filesystem storage |
| `Jobs.BuildCronJob` | internal/controller/kopiabackup/builder.go:144-312 | open limits get the defaults 3, 1, 86400, 21600 and 5; the pod can be admitted, mounts the claim once, is pinned to the consumer's node and sees the repository's environment and storage |
| `Jobs.DataPathParts` | internal/controller/kopiabackup/builder.go:154-159 | split at its slashes, the data path is data, the namespace, the application if one was found, and the PVC name |
| `Jobs.DataPathSharedIff` | internal/controller/kopiabackup/builder.go:154-159 | two pods mount their data at one path exactly when namespace, application and PVC are all the same |
| `Jobs.ConnectsAsUserIff` | internal/controller/kopiabackup/builder.go:81-82 | the script's expansions recover namespace-PVC and the hostname, for every hostname, exactly when the names hold no at sign |
| `Shell.SplitsUserAndHostIff` | internal/controller/kopiabackup/builder.go:81-82 | the two parameter expansions split at the at sign exactly when the user part has none |
| `Drift.StoredParts` | internal/controller/kopiabackup/reconciler.go:458-481 | whatever was stored, the eleven managed fields, one by one, become those of the desired spec with defaults filled in and all others are kept |
| `Drift.WritesIff` | internal/controller/kopiabackup/reconciler.go:463-480 | an existing CronJob is written exactly when a managed field differs |
| `Drift.SecondCallQuietIff` | internal/controller/kopiabackup/reconciler.go:458-481 | for idempotent defaulting, a second call never changes what is stored exactly when defaulting absorbs its own unmanaged defaults |
| `Drift.SeparateAbsorbs` | internal/controller/kopiabackup/reconciler.go:458-481 | defaulting that treats managed and unmanaged fields separately meets that condition |
| `Drift.IdempotenceNotEnough` | internal/controller/kopiabackup/reconciler.go:458-481 | an idempotent defaulting under which a second call does change the stored object |
| `Drift.CronJobs.Reconcile` | internal/controller/kopiabackup/reconciler.go:437-481 | success stores what the desired spec makes of the object met by the last call, a new object with the desired spec and metadata, an existing one with its own metadata, and leaves other CronJobs alone; undisturbed, it succeeds exactly when the calls it needs do |
| `Drift.CronJobs.Overwrite` | internal/controller/kopiabackup/reconciler.go:465-475 | the eleven assignments give the managed fields of one spec and all other fields of the other |
| `Drift.OtherPvcsUntouched` | internal/controller/kopiabackup/reconciler.go:285-290 | PVCs whose names do not collide never write each other's CronJob |
| `Drift.ServiceAppliesIff` | internal/kopia/server/manager.go:123-130 | a needed change reaches the Service exactly when the stored one differs from the desired one in a filled-in field |
| `Drift.PortChangeIgnored` | internal/kopia/server/manager.go:123-128 | behind an API server that has filled in nothing, a changed port is dropped and the call succeeds |
| `Drift.ServiceConverges` | internal/kopia/server/manager.go:101-131 | behind a server that always fills something in, one call applies the change and the next changes nothing |
| `Drift.ServiceCreatedAndKept` | internal/kopia/server/manager.go:112-131 | a created Service has the desired ports, type and selector; an existing one never loses a filled-in field |
| `Drift.DeploymentConverges` | internal/kopia/server/manager.go:92-97 | the result is the defaulted desired spec whatever was stored, and a second call changes nothing |
| `Drift.ServerObjects.EnsureServerService` | internal/kopia/server/manager.go:101-131 | from the call outcomes: when it succeeds, and that the store then holds exactly the compare-after-assignment result |
| `Drift.ServerObjects.EnsureServerDeployment` | internal/kopia/server/manager.go:70-98 | from the call outcomes: when it succeeds, and that the store then holds exactly the replaced spec |
| `Repositories.GetKopiaRepository` | internal/controller/kopiabackup/reconciler.go:346-374 | the loop gives the local repository, or the single match, or the error for none or several |
| `Repositories.ResolveMeaning` | internal/controller/pvcwatcher/reconciler.go:191-219 | the answer said of the cluster alone: a successful local read wins, else the unique repository of that name |
| `Repositories.OrderIrrelevant` | internal/controller/kopiabackup/reconciler.go:353-374 | any two listings of one cluster give the same answer |
| `Repositories.NeverForeign` | internal/controller/kopiabackup/reconciler.go:347-374 | however the local read fails, no foreign repository is returned while the local one is listed |
| `Placement.FindPodUsingPVC` | internal/controller/kopiabackup/reconciler.go:378-406 | node, application, name and tolerations of the first running workload pod that mounts the claim, all empty if there is none or the list fails |
| `Placement.NewsPasses` | internal/controller/kopiabackup/reconciler.go:514-532 | only news passes the predicate: a pod that is running when it appears, starts running or gets its node |
| `Placement.FindBackupsForPod` | internal/controller/kopiabackup/reconciler.go:537-572 | exactly the backups of the pod's namespace whose claim it mounts through a volume whose list succeeded; none for job pods |
| `Placement.FindBackupsForField` | internal/controller/kopiabackup/reconciler.go:487-507 | exactly the backups of the object's namespace that name it in the field |
| `Placement.NoNodeIff` | internal/controller/kopiabackup/reconciler.go:387-405 | with nodes on all running pods, no node is found exactly when no pod uses the claim, in any list order |
| `Placement.GainsNoticedIff` | internal/controller/kopiabackup/reconciler.go:514-532 | every single pod event that takes a claim from no node to a node, in any list orders, passes the predicate exactly when the running users of the claim all have nodes or all lack them |
| `Placement.WakesUp` | internal/controller/kopiabackup/reconciler.go:537-572 | and its pod then leads to the backup |
| `Placement.DeletionUnnoticed` | internal/controller/kopiabackup/reconciler.go:531-532 | otherwise the deletion of a user without a node uncovers a node, and no event passes |
| `Placement.WatchCoversIff` | internal/controller/kopiabackup/reconciler.go:487-507 | a backup that resolves to a repository is woken by its changes exactly when both share a namespace |
| `Quoting.UnquoteQuote` | internal/kopia/server/manager.go:57-59 | a quoted value is read back as one word, itself, for every value without NUL, and as no command otherwise |
| `Quoting.QuoteReads` | internal/kopia/server/manager.go:57-59 | inside any line, a quoted value adds exactly that value to the word being read |
| `Quoting.VerbatimIff` | internal/kopia/server/manager.go:475-481 | exactly which texts are guaranteed to come through double quotes unchanged, whatever variables are set; section 2.6 of POSIX leaves a dollar sign before a blank open, so it has no guarantee |
| `Quoting.TwoReadingsIff` | internal/kopia/server/manager.go:464-501 | the word eval reads of a quoted value put through double quotes is guaranteed to be the value, whatever is set then, exactly when it is verbatim, single quotes included |
| `Quoting.UnquotedSurvivesIff` | internal/kopia/server/manager.go:514-530 | exactly which values survive eval unquoted behind a flag and before another word, among those the shell neither expands nor matches against files: those without blanks, newlines, quotes, backslashes and operators; a hash or a tilde inside is kept |
| `Quoting.BlankSplits` | internal/kopia/server/manager.go:514-530 | a user name or password with a blank becomes two words, one with a hash and a tilde inside stays one |
| `ServerScript.StartCommandReads` | internal/kopia/server/manager.go:575-586 | the start command is read as the fixed arguments, written out word by word with the password taken from the environment, followed by exactly the extra ones, one word each; no command exactly when one holds NUL |
| `ServerScript.WriteServerStartCommand` | internal/kopia/server/manager.go:575-586 | the builder's text grows by exactly the start command |
| `ServerScript.WriteExtraArgs` | internal/kopia/server/manager.go:582-585 | the loop appends each argument quoted on its own continued line |
| `ServerScript.DecimalReads` | internal/kopia/server/manager.go:575-586 | a printed port reads back as its number, without leading zeros |
| `SftpScript.SftpCommandReads` | internal/kopia/server/manager.go:464-553 | the script exits exactly when the secret has neither key nor password; otherwise, after the double-quoted assignments and eval, the connect and the create command are exactly the intended words for all verbatim host, path, hostname, user and ssh command |
| `Redaction.Redact` | internal/kopia/user/manager.go:409-418 | no hideable secret of the list is in the result, whatever the others, no hideable word is brought in, and a text without secrets is returned as it is |
| `Redaction.Gone` | internal/kopia/user/manager.go:409-418 | a hideable secret does not occur in the text after its leftmost non-overlapping replacement |
| `Redaction.ReplaceKeepsPieces` | internal/kopia/user/manager.go:409-418 | the text between the occurrences, taken from the left, is kept piece by piece, with the mark in between |
| `Redaction.HidesIff` | internal/kopia/user/manager.go:409-418 | a bracket-free secret is hidden in every text exactly when it is no part of the mark |
| `Redaction.LongSecretsHideable` | internal/kopia/user/manager.go:409-418 | more than eight characters without brackets suffice |
| `Passwords.EncodeShape` | internal/kopia/user/manager.go:237-245 | encoding gives whole groups of four: alphabet characters for the data, then only padding |
| `Passwords.DecodeEncode` | internal/kopia/user/manager.go:237-245 | decoding by the alphabet of RFC 4648, section 5, gives the octets back, for every number of octets |
| `Passwords.Password` | internal/kopia/user/manager.go:237-245 | for every length the first n characters exist, hold no padding and use the URL-safe alphabet |
| `Passwords.DrawsDistinctIff` | internal/kopia/user/manager.go:237-245 | distinct random octets give distinct passwords exactly when the length is a multiple of four |
| `Passwords.GeneratedPasswordsHidden` | internal/kopia/user/manager.go:234-246 | every generated password has 32 characters, is NUL-free and hidden by the redactor in every text |
| `Naming.CronJobNamesCollideIff` | internal/naming/names.go:12-20 | two PVC names share a CronJob name exactly when equal, or both over 42 bytes with the same first 42 and last, or empty and unknown |
| `Naming.CronJobNameLength` | internal/naming/names.go:12-20 | the name starts with the prefix; at most 52 bytes exactly for inputs up to 42; at most 53 for ASCII and 54 for any bytes |
| `Naming.CronJobNameValidIff` | internal/naming/names.go:12-20 | a valid PVC name gives a valid name exactly when the cut does not follow a dot |
| `Naming.UsernamesCollideIff` | internal/naming/names.go:48-50 | two backups share a server user exactly on one host with equal pairs or one namespace n, the other n-s, and PVCs s-p and p |
| `Naming.SecretNamesCollideIff` | internal/naming/names.go:38-40 | two backups have one secret name exactly for equal or shifted pairs |
| `Naming.SharedUserExample` | internal/naming/names.go:48-50 | such a pair |
| `Naming.SameNamespaceDistinct` | internal/naming/names.go:38-50 | within a namespace neither secret names nor user names are shared |

## Left out

- cmd/main.go, controller wiring, logging, events, metrics, webhooks, generated code and YAML: no hard property.
- Stale cache reads: reads show the store at the time of the step; writes are checked against stored versions.
- Command effects that land after the exec call has returned: an effect, if any, lands before the return.
- Whether a TLS key belongs to its certificate: a secret holds a key or not.
- SHA-256, RSA, PEM, X.509 and random octets: digests are injective or given functions, random octets are inputs.
- Other KopiaBackups for the same PVC or the same secret name: the machine follows one key.
- Finalizers of others and owner-based garbage collection.
- The steps inside EnsureUser in the machine of two controllers: there it is one step that runs its command or not; `Credentials` has its steps, for one backup.
- A missing UserManager or ServerManager in the backup reconciler; requeue delays; condition messages; the server URL in the status.
- Crashes inside the methods of `Reconcilers`: the machine of `Controllers` has them between any two steps.
- Version conflicts on the Service, the Deployment and the repository's status: they count as failed calls.
- buildConfigMap and its JSON, container, probe and resource literals: field copying.
- The path cleaning of the log directory: the cleaned path is an input.
- BuildCacheFlags, the filesystem server script, the admin user script and the known-hosts files: the cache flags enter as plain words.
- SftpScript.SftpCommandReads: values taken from the credentials secret are of plain characters, because the script does not quote them; `UnquotedSurvivesIff` says which survive. The create command uses the same variable name as the connect command, where the script uses SFTP_CREATE_CMD.
- Quoting.UnquotedSurvivesIff: leaves out values with a dollar sign or a backquote, which eval expands, and with a star, a question mark or an opening bracket, which it matches against the files there are.
- Semantic equality of nil and empty lists: specs are compared as values.
- Users made or deleted on a server by anybody but the operator, and servers that lose their users: `Orphans` reads what a server holds off the commands run on it.
- Kopia's own behaviour and the Kubernetes job scheduler.
