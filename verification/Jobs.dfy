/**
 * The CronJob a backup asks for (internal/controller/kopiabackup/builder.go): environment, volumes
 * and mounts are collected by appending, later environment entries override earlier ones.
 */
module Jobs {
  import opened Options
  import opened Resources
  import opened Text
  import opened Shell
  import Naming
  import Placement

  datatype EnvName = LogDir | Password | TlsFingerprint | CacheDirectory | ConfigPath | ServerPassword

  datatype EnvValue = Literal(value: string) | FromSecret(secret: string, key: EnvName)

  datatype EnvVar = EnvVar(name: EnvName, value: EnvValue)

  datatype VolumeName = Data | KopiaCache | Config | RepositoryFiles | SftpCredentials

  datatype Source =
    | Claim(pvcName: Bytes)
    | EmptyDir
    | FromConfigMap(name: string)
    | Nfs(server: string, path: string)
    | SecretFiles(name: string)

  datatype Volume = Volume(name: VolumeName, source: Source)

  datatype Mount = Mount(name: VolumeName, path: string)

  datatype JobLabels = JobLabels(backup: string, repository: string, pvcName: Bytes)

  datatype PodLabels = PodLabels(job: JobLabels, node: string, app: string)

  /** `other` stands for the fields the server fills in. */
  datatype PodSpec = PodSpec(env: seq<EnvVar>, envFrom: seq<string>, mounts: seq<Mount>, volumes: seq<Volume>,
                             node: Option<string>, tolerations: seq<Placement.Toleration>, other: string)

  datatype JobSpec = JobSpec(ttl: Option<int>, deadline: Option<int>, backoff: Option<int>, suspend: Option<bool>,
                             podLabels: PodLabels, pod: PodSpec,
                             parallelism: Option<int>, completions: Option<int>, other: string)

  datatype CronJobSpec = CronJobSpec(schedule: string, suspend: Option<bool>, concurrency: string,
                                     successful: Option<int>, failed: Option<int>, job: JobSpec,
                                     jobLabels: JobLabels, timeZone: Option<string>, startingDeadline: Option<int>)

  datatype Settings = Settings(
    name: string, namespace: string, pvcName: Bytes, schedule: string, repository: string, suspend: bool,
    successful: Option<int>, failed: Option<int>, ttl: Option<int>, deadline: Option<int>, backoff: Option<int>)

  /** What a container sees: the last entry of a name. */
  function Effective(env: seq<EnvVar>, n: EnvName): Option<EnvValue> {
    if env == [] then None
    else if env[|env| - 1].name == n then Some(env[|env| - 1].value)
    else Effective(env[..|env| - 1], n)
  }

  lemma Appended(env: seq<EnvVar>, v: EnvVar)
    ensures forall n :: Effective(env + [v], n) == if v.name == n then Some(v.value) else Effective(env, n)
  {
    assert (env + [v])[..|env|] == env;
  }

  predicate Declares(volumes: seq<Volume>, n: VolumeName) {
    exists j :: 0 <= j < |volumes| && volumes[j].name == n
  }

  /** Every mount names a declared volume, and volume names are unique, as the API server demands. */
  predicate Admissible(mounts: seq<Mount>, volumes: seq<Volume>) {
    && (forall i :: 0 <= i < |mounts| ==> Declares(volumes, mounts[i].name))
    && (forall i, j :: 0 <= i < j < |volumes| ==> volumes[i].name != volumes[j].name)
  }

  const LOGS: string := "/cache/kopia/logs"

  /** Cache, configuration and logs are below `/cache`. */
  predicate BelowCache(env: seq<EnvVar>) {
    && Effective(env, CacheDirectory) == Some(Literal("/cache/kopia"))
    && Effective(env, ConfigPath) == Some(Literal("/cache/kopia/repository.config"))
    && Effective(env, LogDir) == Some(Literal("/cache/kopia/logs"))
  }

  /**
   * Server mode: the password and the user come from the user's secret, the fingerprint from the repository's status;
   * cache, configuration and logs go below the one writable mount.
   */
  method BuildServerModeConfig(secret: string, fingerprint: string,
                               env0: seq<EnvVar>, from0: seq<string>, mounts0: seq<Mount>, volumes0: seq<Volume>)
    returns (env: seq<EnvVar>, from: seq<string>, mounts: seq<Mount>, volumes: seq<Volume>)
    ensures env0 <= env && from == from0 + [secret]
    ensures Effective(env, TlsFingerprint) ==
            if fingerprint != "" then Some(Literal(fingerprint)) else Effective(env0, TlsFingerprint)
    ensures BelowCache(env)
    ensures Effective(env, Password) == Some(FromSecret(secret, ServerPassword))
    ensures Effective(env, ServerPassword) == Effective(env0, ServerPassword)
    ensures mounts == mounts0 + [Mount(KopiaCache, "/cache")] && volumes == volumes0 + [Volume(KopiaCache, EmptyDir)]
    ensures Admissible(mounts0, volumes0) && !Declares(volumes0, KopiaCache) ==> Admissible(mounts, volumes)
  {
    env, from, mounts, volumes := env0, from0, mounts0, volumes0;
    from := from + [secret];
    Appended(env, EnvVar(Password, FromSecret(secret, ServerPassword)));
    env := env + [EnvVar(Password, FromSecret(secret, ServerPassword))];
    if fingerprint != "" {
      Appended(env, EnvVar(TlsFingerprint, Literal(fingerprint)));
      env := env + [EnvVar(TlsFingerprint, Literal(fingerprint))];
    }
    volumes := volumes + [Volume(KopiaCache, EmptyDir)];
    mounts := mounts + [Mount(KopiaCache, "/cache")];
    if Admissible(mounts0, volumes0) && !Declares(volumes0, KopiaCache) {
      Paired(Mount(KopiaCache, "/cache"), Volume(KopiaCache, EmptyDir));
      Joined(mounts0, volumes0, [Mount(KopiaCache, "/cache")], [Volume(KopiaCache, EmptyDir)]);
    }
    Appended(env, EnvVar(CacheDirectory, Literal("/cache/kopia")));
    env := env + [EnvVar(CacheDirectory, Literal("/cache/kopia"))];
    Appended(env, EnvVar(ConfigPath, Literal("/cache/kopia/repository.config")));
    env := env + [EnvVar(ConfigPath, Literal("/cache/kopia/repository.config"))];
    Appended(env, EnvVar(LogDir, Literal(LOGS)));
    env := env + [EnvVar(LogDir, Literal(LOGS))];
  }

  lemma Paired(m: Mount, v: Volume)
    requires m.name == v.name
    ensures Admissible([m], [v])
  {
    assert [v][0].name == m.name;
  }

  lemma DeclaresMore(volumes: seq<Volume>, more: seq<Volume>, n: VolumeName)
    ensures Declares(volumes + more, n) <==> Declares(volumes, n) || Declares(more, n)
  {
    var all := volumes + more;
    if Declares(volumes, n) {
      var j :| 0 <= j < |volumes| && volumes[j].name == n;
      assert all[j].name == n;
    }
    if Declares(more, n) {
      var j :| 0 <= j < |more| && more[j].name == n;
      assert all[|volumes| + j].name == n;
    }
    if Declares(all, n) {
      var j :| 0 <= j < |all| && all[j].name == n;
      assert if j < |volumes| then volumes[j].name == n else more[j - |volumes|].name == n;
    }
  }

  /** Volumes and mounts that fit each other may be added together. */
  lemma Joined(mounts: seq<Mount>, volumes: seq<Volume>, ms: seq<Mount>, vs: seq<Volume>)
    requires Admissible(mounts, volumes) && Admissible(ms, vs)
    requires forall j :: 0 <= j < |vs| ==> !Declares(volumes, vs[j].name)
    ensures Admissible(mounts + ms, volumes + vs)
  {
    forall i | 0 <= i < |mounts + ms| ensures Declares(volumes + vs, (mounts + ms)[i].name) {
      DeclaresMore(volumes, vs, (mounts + ms)[i].name);
    }
    var all := volumes + vs;
    forall i, j | 0 <= i < j < |all| ensures all[i].name != all[j].name {
      if i < |volumes| <= j {
        assert volumes[i].name == all[i].name && all[j].name == vs[j - |volumes|].name;
      }
    }
  }

  /** None of the volumes direct mode adds is declared yet. */
  predicate RoomForDirect(volumes: seq<Volume>) {
    !Declares(volumes, KopiaCache) && !Declares(volumes, Config) && !Declares(volumes, RepositoryFiles)
    && !Declares(volumes, SftpCredentials)
  }

  /** The mounts direct mode needs for a storage. */
  predicate MountsFor(repo: Repository, ms: seq<Mount>) {
    if repo.storage.Filesystem? then
      ms == [Mount(Config, "/config/repository.config"), Mount(RepositoryFiles, repo.storage.path)]
    else
      ms == [Mount(Config, "/config/repository.config"), Mount(SftpCredentials, "/sftp-creds"),
             Mount(KopiaCache, repo.cacheDirectory)]
  }

  /** Their sources: the repository's own ConfigMap and NFS export, or its credentials and scratch space. */
  predicate VolumesFor(repo: Repository, vs: seq<Volume>) {
    if repo.storage.Filesystem? then
      vs == [Volume(Config, FromConfigMap("kopia-config-" + repo.name)),
             Volume(RepositoryFiles, Nfs(repo.storage.nfsServer, repo.storage.nfsPath))]
    else
      vs == [Volume(SftpCredentials, SecretFiles(repo.storage.credentialsSecret)), Volume(Config, EmptyDir),
             Volume(KopiaCache, EmptyDir)]
  }

  /** Direct mode: the configuration file comes from the ConfigMap exactly on filesystem storage. */
  method BuildDirectModeConfig(repo: Repository, env0: seq<EnvVar>, from0: seq<string>, mounts0: seq<Mount>,
                               volumes0: seq<Volume>)
    returns (env: seq<EnvVar>, from: seq<string>, mounts: seq<Mount>, volumes: seq<Volume>)
    ensures env0 <= env && from == from0 + [repo.passwordSecret] && mounts0 <= mounts && volumes0 <= volumes
    ensures MountsFor(repo, mounts[|mounts0|..]) && VolumesFor(repo, volumes[|volumes0|..])
    ensures Effective(env, CacheDirectory) == Some(Literal(repo.cacheDirectory))
    ensures forall n :: n != CacheDirectory ==> Effective(env, n) == Effective(env0, n)
    ensures Admissible(mounts0, volumes0) && RoomForDirect(volumes0) ==> Admissible(mounts, volumes)
    ensures RoomForDirect(volumes0) ==>
              (Volume(Config, FromConfigMap(Naming.ConfigMapName(repo.name))) in volumes <==> repo.storage.Filesystem?)
  {
    env, from, mounts, volumes := env0, from0, mounts0, volumes0;
    Appended(env, EnvVar(CacheDirectory, Literal(repo.cacheDirectory)));
    env := env + [EnvVar(CacheDirectory, Literal(repo.cacheDirectory))];
    mounts := mounts + [Mount(Config, "/config/repository.config")];
    ghost var ms, vs;
    match repo.storage {
      case Filesystem(path, nfsServer, nfsPath) =>
        mounts := mounts + [Mount(RepositoryFiles, path)];
        volumes := volumes + [Volume(Config, FromConfigMap(Naming.ConfigMapName(repo.name))),
                              Volume(RepositoryFiles, Nfs(nfsServer, nfsPath))];
        ms := [Mount(Config, "/config/repository.config"), Mount(RepositoryFiles, path)];
        vs := [Volume(Config, FromConfigMap(Naming.ConfigMapName(repo.name))),
               Volume(RepositoryFiles, Nfs(nfsServer, nfsPath))];
        assert vs[0].name == Config && vs[1].name == RepositoryFiles;
        assert volumes[|volumes0|] == vs[0];
      case Sftp(secret) =>
        volumes := volumes + [Volume(SftpCredentials, SecretFiles(secret)), Volume(Config, EmptyDir),
                              Volume(KopiaCache, EmptyDir)];
        mounts := mounts + [Mount(SftpCredentials, "/sftp-creds"), Mount(KopiaCache, repo.cacheDirectory)];
        ms := [Mount(Config, "/config/repository.config"), Mount(SftpCredentials, "/sftp-creds"),
               Mount(KopiaCache, repo.cacheDirectory)];
        vs := [Volume(SftpCredentials, SecretFiles(secret)), Volume(Config, EmptyDir), Volume(KopiaCache, EmptyDir)];
        assert vs[0].name == SftpCredentials && vs[1].name == Config && vs[2].name == KopiaCache;
    }
    assert volumes == volumes0 + vs && mounts == mounts0 + ms;
    if Admissible(mounts0, volumes0) && RoomForDirect(volumes0) {
      Joined(mounts0, volumes0, ms, vs);
    }
    from := from + [repo.passwordSecret];
  }

  function OrDefault(given: Option<int>, default: int): int {
    if given.Some? then given.value else default
  }

  function MountPath(b: Settings, place: Placement.PodPlacement): string {
    "/data/" + b.namespace + "/" + (if place.appName != "" then place.appName + "/" else "") + b.pvcName
  }

  /** The pod can be admitted, mounts the backed-up claim and goes where the claim is in use. */
  predicate PodFits(b: Settings, place: Placement.PodPlacement, pod: PodSpec) {
    && Admissible(pod.mounts, pod.volumes)
    && Volume(Data, Claim(b.pvcName)) in pod.volumes && Mount(Data, MountPath(b, place)) in pod.mounts
    && (forall m :: m in pod.mounts && m.name == Data ==> m.path == MountPath(b, place))
    && pod.node == (if place.nodeName == "" then None else Some(place.nodeName))
    && pod.tolerations == (if place.tolerations == [] then [Placement.DedicatedNodes] else place.tolerations)
  }

  // --- The data path ---

  /** A path split at its slashes. */
  function Components(path: string): (parts: seq<string>)
    ensures parts != []
  {
    if path == "" then [""]
    else
      var rest := Components(path[1..]);
      if path[0] == '/' then [""] + rest else [[path[0]] + rest[0]] + rest[1..]
  }

  lemma {:induction false} FirstComponent(a: string, rest: string)
    requires '/' !in a
    ensures Components(a + "/" + rest) == [a] + Components(rest)
  {
    var path := a + "/" + rest;
    if a == "" {
      assert path[1..] == rest;
    } else {
      assert path[1..] == a[1..] + "/" + rest;
      FirstComponent(a[1..], rest);
      assert a == [a[0]] + a[1..];
    }
  }

  lemma {:induction false} OneComponent(a: string)
    requires '/' !in a
    ensures Components(a) == [a]
  {
    if a != "" {
      OneComponent(a[1..]);
      assert a == [a[0]] + a[1..];
    }
  }

  /** Names as Kubernetes has them hold no slash. */
  predicate SlashFree(b: Settings, place: Placement.PodPlacement) {
    '/' !in b.namespace && '/' !in place.appName && '/' !in b.pvcName
  }

  /** Below `/data`, the claim is found under its namespace, then its application if there is one, then its name. */
  lemma DataPathParts(b: Settings, place: Placement.PodPlacement)
    requires SlashFree(b, place)
    ensures Components(MountPath(b, place)) ==
            ["", "data", b.namespace] + (if place.appName == "" then [] else [place.appName]) + [b.pvcName]
  {
    var app := if place.appName != "" then place.appName + "/" else "";
    Associative("/data/" + b.namespace + "/", app, b.pvcName);
    BelowData(b.namespace, app + b.pvcName);
    OneComponent(b.pvcName);
    if place.appName == "" {
      assert app + b.pvcName == b.pvcName;
    } else {
      FirstComponent(place.appName, b.pvcName);
    }
  }

  lemma BelowData(namespace: string, rest: string)
    requires '/' !in namespace
    ensures Components("/data/" + namespace + "/" + rest) == ["", "data", namespace] + Components(rest)
  {
    var more := namespace + "/" + rest;
    FirstComponent(namespace, rest);
    FirstComponent("data", more);
    FirstComponent("", "data" + "/" + more);
    InData(namespace, rest);
  }

  lemma InData(namespace: string, rest: string)
    ensures "/data/" + namespace + "/" + rest == "" + "/" + ("data" + "/" + (namespace + "/" + rest))
  {
  }

  /** Two pods see their data under one path exactly when namespace, application and claim are all the same. */
  lemma DataPathSharedIff(b: Settings, place: Placement.PodPlacement, pod: PodSpec, b': Settings,
                          place': Placement.PodPlacement, pod': PodSpec)
    requires PodFits(b, place, pod) && PodFits(b', place', pod') && SlashFree(b, place) && SlashFree(b', place')
    ensures (exists path :: Mount(Data, path) in pod.mounts && Mount(Data, path) in pod'.mounts) <==>
            b.namespace == b'.namespace && place.appName == place'.appName && b.pvcName == b'.pvcName
  {
    DataPathParts(b, place);
    DataPathParts(b', place');
    var p, p' := Components(MountPath(b, place)), Components(MountPath(b', place'));
    if path :| Mount(Data, path) in pod.mounts && Mount(Data, path) in pod'.mounts {
      assert path == MountPath(b, place) == MountPath(b', place');
      assert p[2] == p'[2] && p[|p| - 1] == p'[|p'| - 1] && p[3] == p'[3];
    }
    if b.namespace == b'.namespace && place.appName == place'.appName && b.pvcName == b'.pvcName {
      assert MountPath(b, place) == MountPath(b', place');
    }
  }

  // --- The pod ---

  /** Direct mode finds the storage, and its configuration file on a filesystem. */
  predicate StorageFits(repo: Repository, mounts: seq<Mount>, volumes: seq<Volume>) {
    match repo.storage
    case Filesystem(path, nfsServer, nfsPath) =>
      && Mount(RepositoryFiles, path) in mounts && Volume(RepositoryFiles, Nfs(nfsServer, nfsPath)) in volumes
      && Volume(Config, FromConfigMap(Naming.ConfigMapName(repo.name))) in volumes
    case Sftp(secret) =>
      && Mount(KopiaCache, repo.cacheDirectory) in mounts && Volume(KopiaCache, EmptyDir) in volumes
      && Volume(SftpCredentials, SecretFiles(secret)) in volumes
  }

  lemma StorageFound(repo: Repository, ms: seq<Mount>, vs: seq<Volume>, mounts: seq<Mount>, volumes: seq<Volume>)
    requires MountsFor(repo, ms) && VolumesFor(repo, vs)
    requires (forall m :: m in ms ==> m in mounts) && (forall v :: v in vs ==> v in volumes)
    ensures StorageFits(repo, mounts, volumes)
  {
    assert ms[1] in ms && vs[0] in vs && vs[1] in vs;
    if repo.storage.Sftp? { assert ms[2] in ms && vs[2] in vs; }
  }

  /** What the container sees of the repository. */
  predicate EnvFits(b: Settings, repo: Repository, env: seq<EnvVar>, from: seq<string>, mounts: seq<Mount>,
                    volumes: seq<Volume>) {
    if repo.serverEnabled then
      var secret := Naming.UserSecretName(b.namespace, b.pvcName);
      && from == [secret]
      && Effective(env, Password) == Some(FromSecret(secret, ServerPassword))
      && BelowCache(env) && Mount(KopiaCache, "/cache") in mounts && Volume(KopiaCache, EmptyDir) in volumes
      && Effective(env, TlsFingerprint) == (if repo.fingerprint != "" then Some(Literal(repo.fingerprint)) else None)
    else
      && from == [repo.passwordSecret]
      && StorageFits(repo, mounts, volumes)
      && Effective(env, CacheDirectory) == Some(Literal(repo.cacheDirectory))
      && Effective(env, LogDir) == Some(Literal(repo.logDir))
      && forall n :: n != CacheDirectory && n != LogDir ==> Effective(env, n) == None
  }

  /** The data comes first and is mounted once. */
  predicate MountsBeside(b: Settings, place: Placement.PodPlacement, mounts: seq<Mount>, volumes: seq<Volume>) {
    && Admissible(mounts, volumes) && mounts != [] && mounts[0] == Mount(Data, MountPath(b, place))
    && volumes != [] && volumes[0] == Volume(Data, Claim(b.pvcName))
    && forall i :: 1 <= i < |mounts| ==> mounts[i].name != Data
  }

  /** A single volume leaves room for those of either mode. */
  lemma DataOnly(m: Mount, v: Volume)
    requires m.name == Data && v.name == Data
    ensures Admissible([m], [v]) && !Declares([v], KopiaCache) && RoomForDirect([v])
  {
    Paired(m, v);
  }

  method ServerConfig(b: Settings, place: Placement.PodPlacement, repo: Repository, env0: seq<EnvVar>)
    returns (env: seq<EnvVar>, from: seq<string>, mounts: seq<Mount>, volumes: seq<Volume>)
    requires repo.serverEnabled && Effective(env0, TlsFingerprint) == None
    ensures MountsBeside(b, place, mounts, volumes) && EnvFits(b, repo, env, from, mounts, volumes)
  {
    var mount, volume := Mount(Data, MountPath(b, place)), Volume(Data, Claim(b.pvcName));
    DataOnly(mount, volume);
    env, from, mounts, volumes := BuildServerModeConfig(Naming.UserSecretName(b.namespace, b.pvcName), repo.fingerprint,
                                                        env0, [], [mount], [volume]);
    assert mounts[1] == Mount(KopiaCache, "/cache") && volumes[1] == Volume(KopiaCache, EmptyDir);
  }

  method DirectConfig(b: Settings, place: Placement.PodPlacement, repo: Repository, env0: seq<EnvVar>)
    returns (env: seq<EnvVar>, from: seq<string>, mounts: seq<Mount>, volumes: seq<Volume>)
    requires !repo.serverEnabled && Effective(env0, LogDir) == Some(Literal(repo.logDir))
    requires forall n :: n != LogDir ==> Effective(env0, n) == None
    ensures MountsBeside(b, place, mounts, volumes) && EnvFits(b, repo, env, from, mounts, volumes)
  {
    var mount, volume := Mount(Data, MountPath(b, place)), Volume(Data, Claim(b.pvcName));
    DataOnly(mount, volume);
    env, from, mounts, volumes := BuildDirectModeConfig(repo, env0, [], [mount], [volume]);
    assert mounts[0] == mount && volumes[0] == volume;
    NoneOfData(repo, mounts[1..]);
    StorageFound(repo, mounts[1..], volumes[1..], mounts, volumes);
  }

  lemma NoneOfData(repo: Repository, ms: seq<Mount>)
    requires MountsFor(repo, ms)
    ensures forall i :: 0 <= i < |ms| ==> ms[i].name != Data
  {
  }

  method BuildPod(b: Settings, place: Placement.PodPlacement, repo: Repository, other: string) returns (pod: PodSpec)
    ensures PodFits(b, place, pod) && pod.other == other
    ensures EnvFits(b, repo, pod.env, pod.envFrom, pod.mounts, pod.volumes)
  {
    var tolerations := place.tolerations;
    if |tolerations| == 0 {
      tolerations := [Placement.DedicatedNodes];
    }
    var env := [EnvVar(LogDir, Literal(repo.logDir))];
    FirstEntry(env[0]);
    var from, mounts, volumes;
    if repo.serverEnabled {
      env, from, mounts, volumes := ServerConfig(b, place, repo, env);
    } else {
      env, from, mounts, volumes := DirectConfig(b, place, repo, env);
    }
    pod := PodSpec(env, from, mounts, volumes, if place.nodeName == "" then None else Some(place.nodeName),
                   tolerations, other);
  }

  lemma FirstEntry(v: EnvVar)
    ensures forall n :: Effective([v], n) == if v.name == n then Some(v.value) else None
  {
    assert [v][..0] == [];
  }

  /** The job template. */
  method BuildJob(b: Settings, place: Placement.PodPlacement, repo: Repository, other: string) returns (job: JobSpec)
    ensures job.suspend == Some(b.suspend) && job.backoff == Some(OrDefault(b.backoff, 5))
    ensures job.ttl == Some(OrDefault(b.ttl, 86400)) && job.deadline == Some(OrDefault(b.deadline, 21600))
    ensures job.parallelism.None? && job.completions.None?
    ensures job.podLabels == PodLabels(JobLabels(b.name, b.repository, b.pvcName), place.nodeName, place.appName)
    ensures PodFits(b, place, job.pod)
    ensures var pod := job.pod; EnvFits(b, repo, pod.env, pod.envFrom, pod.mounts, pod.volumes)
  {
    var pod := BuildPod(b, place, repo, other);
    var ttl := b.ttl;
    if ttl.None? { ttl := Some(86400); }
    var deadline := b.deadline;
    if deadline.None? { deadline := Some(21600); }
    var backoff := b.backoff;
    if backoff.None? { backoff := Some(5); }
    var labels := PodLabels(JobLabels(b.name, b.repository, b.pvcName), place.nodeName, place.appName);
    job := JobSpec(ttl, deadline, backoff, Some(b.suspend), labels, pod, None, None, "");
    assert job.pod == pod;
  }

  /** Limits the backup leaves open get the operator's defaults; everything runs one job at a time. */
  method BuildCronJob(b: Settings, place: Placement.PodPlacement, repo: Repository, other: string)
    returns (job: CronJobSpec)
    ensures job.schedule == b.schedule && job.suspend == Some(b.suspend) && job.job.suspend == Some(b.suspend)
    ensures job.concurrency == "Forbid"
    ensures job.successful == Some(OrDefault(b.successful, 3)) && job.failed == Some(OrDefault(b.failed, 1))
    ensures job.job.ttl == Some(OrDefault(b.ttl, 86400)) && job.job.deadline == Some(OrDefault(b.deadline, 21600))
    ensures job.job.backoff == Some(OrDefault(b.backoff, 5))
    ensures PodFits(b, place, job.job.pod)
    ensures var pod := job.job.pod; EnvFits(b, repo, pod.env, pod.envFrom, pod.mounts, pod.volumes)
    ensures job.jobLabels == JobLabels(b.name, b.repository, b.pvcName)
    ensures job.job.podLabels == PodLabels(job.jobLabels, place.nodeName, place.appName)
    ensures job.timeZone.None? && job.startingDeadline.None? && job.job.parallelism.None? && job.job.completions.None?
  {
    var template := BuildJob(b, place, repo, other);
    var successful := b.successful;
    if successful.None? { successful := Some(3); }
    var failed := b.failed;
    if failed.None? { failed := Some(1); }
    var labels := JobLabels(b.name, b.repository, b.pvcName);
    job := CronJobSpec(b.schedule, Some(b.suspend), "Forbid", successful, failed, template, labels, None, None);
    assert job.job == template;
  }

  /** The job connects as the user EnsureUser creates, on every host, exactly when no name holds an `@`. */
  lemma ConnectsAsUserIff(namespace: string, pvcName: string, hostname: string)
    ensures var x := Naming.Username(namespace, pvcName, hostname);
            && RemoveLargestSuffix(x, AT_REST, 0) == namespace + "-" + pvcName
            && RemoveSmallestPrefix(x, UP_TO_AT, 0) == hostname
            <==> '@' !in namespace && '@' !in pvcName
  {
    SplitsUserAndHostIff(namespace + "-" + pvcName, hostname);
  }
}
