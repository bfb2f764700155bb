/** Values that several components share: outcomes of calls, status conditions and repositories. */
module Resources {
  /** A call fails without effect, fails although it took effect, or succeeds. */
  datatype Outcome = Lost | Applied | Done

  datatype Reason =
    | Reconciled | PVCNotFound | RepositoryNotFound | NoPodFound | CronJobFailed | SuspendedByUser
    | MissingPassword | ServerFailed | ServerDeployed | ConfigValid

  datatype Condition = Condition(isTrue: bool, reason: Reason, observedGeneration: nat)

  datatype Storage = Filesystem(path: string, nfsServer: string, nfsPath: string) | Sftp(credentialsSecret: string)

  /**
   * A KopiaRepository as lookups show it; `logDir` is the log directory below the storage path, `fingerprint` comes
   * from the status.
   */
  datatype Repository = Repository(
    namespace: string, name: string, hostname: string, serverEnabled: bool, defaultSchedule: string, storage: Storage,
    passwordSecret: string, cacheDirectory: string, logDir: string, fingerprint: string)
}
