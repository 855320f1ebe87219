/**
 Runs of the file tables under any number of deletion workers, and what holds in all of them.

 A worker claims a job, asks the object store to delete the object, and reports the outcome;
 these are three separate steps, and a lease can run out between them. Lease tokens are
 drawn from a counter, which stands for the freshness of random ones.
 */
module FileRuns {
  import opened Wrappers
  import opened FileTables

  /** `held` are the claims that workers have not settled yet. */
  datatype System = System(tables: Tables, held: map<Id, Claim>, nextToken: Id)

  const START := System(Tables(map[], map[], map[], map[], 0), map[], 0)

  datatype Action =
    | DoSave(endpoint: Id, region: Id, bucket: Id, activate: bool)
    | DoRollback(source: int)
    | DoCreate(config: Id, objectKey: Id)
    | DoExtendUrl(file: Id, expiresAt: int)
    | DoMarkUploaded(file: Id)
    | DoArchive(file: Id)
    | DoSweepUploads(aged: set<Id>)
    | DoEnqueue(file: Id)
    | DoClaim(worker: Id)
    | DoDelete(worker: Id)
    | DoSettle(worker: Id, deleted: bool)

  function ClaimStep(s: System, worker: Id, now: int): System {
    if worker in s.held then s
    else
      var (t, c) := TakeJob(s.tables, s.nextToken, now);
      System(t, if c.Some? then s.held[worker := c.value] else s.held, s.nextToken + 1)
  }

  function SettleStep(s: System, worker: Id, deleted: bool, now: int): System {
    if worker !in s.held then s
    else
      var c := s.held[worker];
      s.(tables := if deleted then Complete(s.tables, c).0 else Retry(s.tables, c, now).0, held := s.held - {worker})
  }

  /** The actions that concern the tables alone. */
  function TableStep(t: Tables, a: Action, now: int): Tables {
    match a
    case DoSave(endpoint, region, bucket, activate) => Save(t, endpoint, region, bucket, activate)
    case DoRollback(source) => Rollback(t, source).0
    case DoCreate(config, key) => Create(t, config, key)
    case DoExtendUrl(file, expiresAt) => ExtendUrl(t, file, expiresAt).0
    case DoMarkUploaded(file) => MarkUploaded(t, file)
    case DoArchive(file) => Archive(t, file)
    case DoSweepUploads(aged) => SweepUploads(t, aged, now)
    case DoEnqueue(file) => Enqueue(t, file, now).0
    case _ => t
  }

  function Act(s: System, a: Action, now: int): System {
    match a
    case DoClaim(worker) => ClaimStep(s, worker, now)
    case DoSettle(worker, deleted) => SettleStep(s, worker, deleted, now)
    case _ => s.(tables := TableStep(s.tables, a, now))
  }

  datatype Timed = Timed(action: Action, now: int)

  function At(run: seq<Timed>, i: nat): System
    requires i <= |run|
  {
    if i == 0 then START else Act(At(run, i - 1), run[i - 1].action, run[i - 1].now)
  }

  /** The clock of the database never runs back. */
  ghost predicate Monotone(run: seq<Timed>) {
    forall i, j :: 0 <= i <= j < |run| ==> run[i].now <= run[j].now
  }

  // The invariant.

  ghost predicate IdInv(t: Tables) {
    && (forall c :: c in t.configs ==> c < t.nextId)
    && (forall f :: f in t.files ==> f < t.nextId)
    && (forall j :: j in t.jobs ==> j < t.nextId)
  }

  ghost predicate ConfigRows(configs: map<Id, Config>) {
    && (forall c :: c in configs ==> configs[c].location.provider == PROVIDER && configs[c].version >= 1)
    && (forall c, d :: c in configs && d in configs && c < d ==> configs[c].version < configs[d].version)
    && (forall c, d :: c in configs && d in configs && configs[c].status == Live && configs[d].status == Live ==> c == d)
  }

  predicate InUse(configs: map<Id, Config>, version: int) {
    exists c :: c in configs && configs[c].version == version
  }

  /** The history knows exactly the versions in use, each with its location. */
  ghost predicate History(configs: map<Id, Config>, versions: map<int, Location>) {
    && (forall c :: c in configs ==> configs[c].version in versions && versions[configs[c].version] == configs[c].location)
    && (forall v :: v in versions ==> InUse(configs, v))
  }

  ghost predicate FileInv(files: map<Id, File>, configs: map<Id, Config>) {
    forall f :: f in files ==>
      && files[f].config.Some? && files[f].config.value in configs
      && configs[files[f].config.value].location.provider == files[f].provider
      && configs[files[f].config.value].location.bucket == files[f].bucket
  }

  /** Deleting at `when` leaves every upload started under a signed URL time to finish. */
  ghost predicate SafeAt(files: map<Id, File>, file: Id, when: int) {
    && file in files && files[file].status == Deleted
    && (files[file].urlExpiresAt.Some? ==> when >= files[file].urlExpiresAt.value + UPLOAD_GRACE)
  }

  /** The object of a file: its key, in the bucket it was uploaded to. */
  ghost predicate OwnObject(files: map<Id, File>, file: Id, location: Location, objectKey: Id) {
    && file in files && files[file].objectKey == objectKey
    && files[file].provider == location.provider && files[file].bucket == location.bucket
  }

  ghost predicate JobShape(files: map<Id, File>, configs: map<Id, Config>, j: Job, clock: int) {
    && SafeAt(files, j.file, j.nextAttemptAt) && OwnObject(files, j.file, j.location, j.objectKey)
    && (j.status == Processing <==> j.lease.Some?)
    && (j.status == Processing ==> j.nextAttemptAt <= clock)
    && (j.status != Completed ==> j.config.Some? && j.config.value in configs && configs[j.config.value].location == j.location)
  }

  ghost predicate JobRows(files: map<Id, File>, configs: map<Id, Config>, jobs: map<Id, Job>, clock: int) {
    forall j :: j in jobs ==> JobShape(files, configs, jobs[j], clock)
  }

  ghost predicate OneJobPerFile(jobs: map<Id, Job>) {
    forall j, k :: j in jobs && k in jobs && jobs[j].file == jobs[k].file ==> j == k
  }

  ghost predicate TablesInv(t: Tables, clock: int) {
    && IdInv(t) && ConfigRows(t.configs) && History(t.configs, t.versions) && FileInv(t.files, t.configs)
    && JobRows(t.files, t.configs, t.jobs, clock) && OneJobPerFile(t.jobs)
  }

  /** A claim is in force exactly while nobody has claimed its job after it. */
  ghost predicate ClaimStands(jobs: map<Id, Job>, c: Claim, clock: int) {
    && c.job in jobs && jobs[c.job].file == c.file
    && c.attempts <= jobs[c.job].attempts
    && (Holds(jobs, c) <==> c.attempts == jobs[c.job].attempts)
    && (Holds(jobs, c) ==> jobs[c.job].lease == Some(Lease(c.token, c.leaseUntil)))
    && (c.leaseUntil > clock ==> Holds(jobs, c))
  }

  ghost predicate ClaimIsSafe(files: map<Id, File>, configs: map<Id, Config>, c: Claim, clock: int) {
    SafeAt(files, c.file, c.dueAt) && c.dueAt <= clock && LocationAgrees(configs, c) && OwnObject(files, c.file, c.location, c.objectKey)
  }

  ghost predicate ClaimRows(t: Tables, held: map<Id, Claim>, clock: int) {
    forall w :: w in held ==> ClaimStands(t.jobs, held[w], clock) && ClaimIsSafe(t.files, t.configs, held[w], clock)
  }

  ghost predicate TokenInv(jobs: map<Id, Job>, held: map<Id, Claim>, nextToken: Id) {
    && (forall w :: w in held ==> held[w].token < nextToken)
    && (forall w, v :: w in held && v in held && held[w].token == held[v].token ==> w == v)
    && (forall j :: j in jobs && jobs[j].lease.Some? ==> jobs[j].lease.value.token < nextToken)
  }

  ghost predicate Inv(s: System, clock: int) {
    TablesInv(s.tables, clock) && ClaimRows(s.tables, s.held, clock) && TokenInv(s.tables.jobs, s.held, s.nextToken)
  }

  // What no step takes back.

  ghost predicate ConfigsLast(before: map<Id, Config>, after: map<Id, Config>) {
    forall c :: c in before ==> c in after && after[c].location == before[c].location && after[c].version == before[c].version
  }

  ghost predicate VersionsLast(before: map<int, Location>, after: map<int, Location>) {
    forall v :: v in before ==> v in after && after[v] == before[v]
  }

  ghost predicate FileLasts(f: File, g: File) {
    && g.config == f.config && g.provider == f.provider && g.bucket == f.bucket && g.objectKey == f.objectKey
    && (f.status == Uploaded ==> g.status != Uploading)
    && (f.status == Deleted ==> g.status == Deleted)
    && (f.urlExpiresAt.Some? ==> g.urlExpiresAt.Some? && g.urlExpiresAt.value >= f.urlExpiresAt.value)
    && (f.status != Uploading ==> g.urlExpiresAt == f.urlExpiresAt)
  }

  ghost predicate FilesLast(before: map<Id, File>, after: map<Id, File>) {
    forall f :: f in before ==> f in after && FileLasts(before[f], after[f])
  }

  ghost predicate JobLasts(j: Job, k: Job) {
    && k.file == j.file && k.location == j.location && k.objectKey == j.objectKey
    && k.nextAttemptAt >= j.nextAttemptAt && k.attempts >= j.attempts
    && (j.status == Completed ==> k == j)
  }

  ghost predicate JobsLast(before: map<Id, Job>, after: map<Id, Job>) {
    forall j :: j in before ==> j in after && JobLasts(before[j], after[j])
  }

  ghost predicate Extends(t: Tables, u: Tables) {
    ConfigsLast(t.configs, u.configs) && VersionsLast(t.versions, u.versions) && FilesLast(t.files, u.files) && JobsLast(t.jobs, u.jobs)
  }

  lemma ExtendsIsTransitive(t: Tables, u: Tables, v: Tables)
    requires Extends(t, u) && Extends(u, v)
    ensures Extends(t, v)
  {
  }

  lemma ClockMayAdvance(s: System, clock: int, now: int)
    requires Inv(s, clock) && clock <= now
    ensures Inv(s, now)
  {
    hide IdInv, ConfigRows, History, FileInv, OneJobPerFile, TokenInv, SafeAt, LocationAgrees, Holds;
  }

  // Configuration steps.

  predicate SameButStatus(before: map<Id, Config>, after: map<Id, Config>) {
    before.Keys == after.Keys
    && forall c :: c in after ==> after[c].location == before[c].location && after[c].version == before[c].version
  }

  lemma AppendKeepsRows(t: Tables, configs: map<Id, Config>, location: Location, status: ConfigStatus)
    requires IdInv(t) && ConfigRows(configs) && location.provider == PROVIDER && SameButStatus(t.configs, configs)
    requires status == Live ==> forall c :: c in configs ==> configs[c].status != Live
    ensures ConfigRows(Append(t, configs, location, status).configs)
    ensures ConfigsLast(t.configs, Append(t, configs, location, status).configs)
  {
    hide ConfigRows, MaxVersion;
    NextIsHighest(configs);
    NewestRow(configs, t.nextId, Config(location, status, MaxVersion(configs) + 1));
  }

  lemma NextIsHighest(configs: map<Id, Config>)
    requires ConfigRows(configs)
    ensures forall c :: c in configs ==> configs[c].version < MaxVersion(configs) + 1
  {
    assert forall c :: c in configs ==> configs[c].location.provider == PROVIDER;
    hide ConfigRows;
  }

  lemma NewestRow(configs: map<Id, Config>, id: Id, c: Config)
    requires ConfigRows(configs) && c.location.provider == PROVIDER && c.version >= 1
    requires forall d :: d in configs ==> d < id && configs[d].version < c.version
    requires c.status == Live ==> forall d :: d in configs ==> configs[d].status != Live
    ensures ConfigRows(configs[id := c])
  {
  }

  /** The version after the highest one is in use nowhere. */
  lemma NextVersionIsNew(configs: map<Id, Config>)
    requires ConfigRows(configs)
    ensures !InUse(configs, MaxVersion(configs) + 1)
  {
  }

  lemma SameInUse(before: map<Id, Config>, after: map<Id, Config>, version: int)
    requires SameButStatus(before, after)
    ensures InUse(before, version) ==> InUse(after, version)
  {
    if InUse(before, version) {
      var c :| c in before && before[c].version == version;
      assert after[c].version == version;
    }
  }

  lemma AppendKeepsHistory(t: Tables, configs: map<Id, Config>, location: Location, status: ConfigStatus)
    requires IdInv(t) && ConfigRows(configs) && History(t.configs, t.versions) && SameButStatus(t.configs, configs)
    ensures History(Append(t, configs, location, status).configs, Append(t, configs, location, status).versions)
    ensures VersionsLast(t.versions, Append(t, configs, location, status).versions)
  {
    hide MaxVersion, ConfigRows;
    var u := Append(t, configs, location, status);
    var version := MaxVersion(configs) + 1;
    NextVersionIsNew(configs);
    assert t.nextId !in t.configs;
    SameInUse(t.configs, configs, version);
    forall v | v in u.versions
      ensures InUse(u.configs, v)
    {
      if v == version {
        assert u.configs[t.nextId].version == v;
      } else {
        assert InUse(t.configs, v);
        var c :| c in t.configs && t.configs[c].version == v;
        assert u.configs[c].version == v;
      }
    }
    hide InUse;
  }

  lemma DisableKeepsRows(configs: map<Id, Config>)
    requires ConfigRows(configs)
    ensures ConfigRows(Disable(configs)) && SameButStatus(configs, Disable(configs))
    ensures forall c :: c in Disable(configs) ==> Disable(configs)[c].status != Live
  {
  }

  ghost predicate ConfigInv(t: Tables) {
    IdInv(t) && ConfigRows(t.configs) && History(t.configs, t.versions)
  }

  ghost predicate ConfigExtends(t: Tables, u: Tables) {
    ConfigsLast(t.configs, u.configs) && VersionsLast(t.versions, u.versions)
  }

  lemma AppendIsSound(t: Tables, configs: map<Id, Config>, location: Location, status: ConfigStatus)
    requires ConfigInv(t) && ConfigRows(configs) && location.provider == PROVIDER && SameButStatus(t.configs, configs)
    requires status == Live ==> forall c :: c in configs ==> configs[c].status != Live
    ensures ConfigInv(Append(t, configs, location, status)) && ConfigExtends(t, Append(t, configs, location, status))
  {
    AppendKeepsRows(t, configs, location, status);
    AppendKeepsHistory(t, configs, location, status);
    hide ConfigRows, History, ConfigsLast, VersionsLast, MaxVersion;
  }

  lemma RecordedProvider(t: Tables, version: int)
    requires ConfigInv(t) && version in t.versions
    ensures t.versions[version].provider == PROVIDER
  {
    assert InUse(t.configs, version);
  }

  lemma ConfigStepIsSound(t: Tables, a: Action, now: int)
    requires ConfigInv(t) && (a.DoSave? || a.DoRollback?)
    ensures ConfigInv(TableStep(t, a, now)) && ConfigExtends(t, TableStep(t, a, now))
  {
    assert ConfigRows(t.configs);
    DisableKeepsRows(t.configs);
    assert SameButStatus(t.configs, t.configs) && ConfigExtends(t, t);
    hide ConfigInv, ConfigExtends, ConfigRows, SameButStatus, Append, Disable;
    if a.DoSave? {
      var location := Location(PROVIDER, a.endpoint, a.region, a.bucket);
      var configs, status := if a.activate then Disable(t.configs) else t.configs, if a.activate then Live else Draft;
      AppendIsSound(t, configs, location, status);
    } else if a.source > 0 && a.source in t.versions {
      RecordedProvider(t, a.source);
      AppendIsSound(t, Disable(t.configs), t.versions[a.source], Live);
    }
  }

  // Files, jobs and claims are as good after a step that keeps what they refer to.

  lemma FilesKept(files: map<Id, File>, before: map<Id, Config>, after: map<Id, Config>)
    requires FileInv(files, before) && ConfigsLast(before, after)
    ensures FileInv(files, after)
  {
  }

  lemma JobsKept(t: Tables, u: Tables, now: int)
    requires JobRows(t.files, t.configs, t.jobs, now) && ConfigsLast(t.configs, u.configs) && FilesLast(t.files, u.files)
    ensures JobRows(u.files, u.configs, t.jobs, now)
  {
    forall j | j in t.jobs
      ensures JobShape(u.files, u.configs, t.jobs[j], now)
    {
      assert JobShape(t.files, t.configs, t.jobs[j], now);
    }
  }

  lemma ClaimsStaySafe(t: Tables, u: Tables, held: map<Id, Claim>, now: int)
    requires ConfigsLast(t.configs, u.configs) && FilesLast(t.files, u.files)
    requires forall w :: w in held ==> ClaimIsSafe(t.files, t.configs, held[w], now)
    ensures forall w :: w in held ==> ClaimIsSafe(u.files, u.configs, held[w], now)
  {
    forall w | w in held
      ensures ClaimIsSafe(u.files, u.configs, held[w], now)
    {
      assert ClaimIsSafe(t.files, t.configs, held[w], now);
    }
  }

  lemma SameAreLast(t: Tables)
    ensures Extends(t, t)
  {
  }

  // Steps that leave the queue alone.

  predicate FileAction(a: Action) {
    a.DoCreate? || a.DoExtendUrl? || a.DoMarkUploaded? || a.DoArchive? || a.DoSweepUploads? || a.DoDelete?
  }

  ghost predicate FileStep(t: Tables, u: Tables) {
    && IdInv(u) && FileInv(u.files, u.configs) && FilesLast(t.files, u.files)
    && u.jobs == t.jobs && u.configs == t.configs && u.versions == t.versions
  }

  lemma FileReplaced(t: Tables, file: Id, g: File)
    requires IdInv(t) && FileInv(t.files, t.configs) && file in t.files && FileLasts(t.files[file], g)
    ensures FileStep(t, t.(files := t.files[file := g]))
  {
  }

  lemma FileStepIsSound(t: Tables, a: Action, now: int)
    requires IdInv(t) && FileInv(t.files, t.configs) && FileAction(a)
    ensures FileStep(t, TableStep(t, a, now))
  {
    assert FileStep(t, t);
    if a.DoExtendUrl? || a.DoMarkUploaded? || a.DoArchive? {
      hide FileStep;
      if a.file in t.files && TableStep(t, a, now) != t {
        FileReplaced(t, a.file, TableStep(t, a, now).files[a.file]);
      }
    }
  }

  lemma QuietStepIsSound(s: System, a: Action, now: int)
    requires Inv(s, now) && (FileAction(a) || a.DoSave? || a.DoRollback?)
    ensures Inv(s.(tables := TableStep(s.tables, a, now)), now) && Extends(s.tables, TableStep(s.tables, a, now))
  {
    var t := s.tables;
    var u := TableStep(t, a, now);
    SameAreLast(t);
    hide ConfigRows, History, FileInv, JobRows, OneJobPerFile, ClaimStands, ClaimIsSafe, TokenInv, ConfigsLast, VersionsLast, FilesLast, JobsLast, IdInv;
    if FileAction(a) {
      FileStepIsSound(t, a, now);
    } else {
      ConfigStepIsSound(t, a, now);
      FilesKept(t.files, t.configs, u.configs);
    }
    hide TableStep;
    JobsKept(t, u, now);
    ClaimsStaySafe(t, u, s.held, now);
  }

  // Enqueue.

  /** In a sound state the two conflicts of the source cannot arise. */
  lemma EnqueueOutcome(t: Tables, file: Id, now: int)
    requires FileInv(t.files, t.configs)
    ensures Enqueue(t, file, now).1 == if file in t.files then Enqueued else NotFound
  {
  }

  lemma JobAdded(files: map<Id, File>, configs: map<Id, Config>, jobs: map<Id, Job>, id: Id, j: Job, now: int)
    requires JobRows(files, configs, jobs, now) && OneJobPerFile(jobs)
    requires JobShape(files, configs, j, now) && !HasJob(jobs, j.file) && id !in jobs
    ensures JobRows(files, configs, jobs[id := j], now) && OneJobPerFile(jobs[id := j]) && JobsLast(jobs, jobs[id := j])
  {
    hide JobShape;
  }

  /** What enqueueing leaves of the queue: every job as it was, and perhaps one that nobody has claimed. */
  ghost predicate JobsJoin(before: map<Id, Job>, after: map<Id, Job>) {
    && (forall j :: j in before ==> j in after && after[j] == before[j])
    && (forall j :: j in after && j !in before ==> after[j].lease.None?)
  }

  function Queued(t: Tables, file: Id, now: int): Tables
    requires file in t.files && t.files[file].config.Some? && t.files[file].config.value in t.configs
  {
    var f := t.files[file];
    var job := Job(file, f.config, t.configs[f.config.value].location, f.objectKey, Waiting, 0, SafeAfter(f, now), None);
    t.(jobs := t.jobs[t.nextId := job], nextId := t.nextId + 1)
  }

  lemma JobQueued(t: Tables, file: Id, now: int)
    requires TablesInv(t, now) && file in t.files && t.files[file].status == Deleted && !HasJob(t.jobs, file)
    requires t.files[file].config.Some? && t.files[file].config.value in t.configs
    ensures TablesInv(Queued(t, file, now), now) && Extends(t, Queued(t, file, now)) && JobsJoin(t.jobs, Queued(t, file, now).jobs)
  {
    hide FilesLast, JobRows, OneJobPerFile, ConfigRows, History, ConfigsLast, VersionsLast, JobsLast, HasJob;
    SameAreLast(t);
    assert OwnObject(t.files, file, t.configs[t.files[file].config.value].location, t.files[file].objectKey);
    hide FileInv;
    JobAdded(t.files, t.configs, t.jobs, t.nextId, Queued(t, file, now).jobs[t.nextId], now);
  }

  lemma DeletionMarked(t: Tables, file: Id, now: int)
    requires TablesInv(t, now) && file in t.files
    ensures var v := t.(files := t.files[file := t.files[file].(status := Deleted)]); TablesInv(v, now) && Extends(t, v)
  {
    FileReplaced(t, file, t.files[file].(status := Deleted));
    hide IdInv, FilesLast, FileInv, JobRows, OneJobPerFile, ConfigRows, History;
    SameAreLast(t);
    hide ConfigsLast, VersionsLast, JobsLast;
    JobsKept(t, t.(files := t.files[file := t.files[file].(status := Deleted)]), now);
  }

  lemma EnqueueTables(t: Tables, file: Id, now: int)
    requires TablesInv(t, now)
    ensures var u := Enqueue(t, file, now).0; TablesInv(u, now) && Extends(t, u) && JobsJoin(t.jobs, u.jobs)
  {
    hide IdInv, JobRows, OneJobPerFile, ConfigRows, History, HasJob, Extends;
    SameAreLast(t);
    EnqueueOutcome(t, file, now);
    if file in t.files {
      DeletionMarked(t, file, now);
      hide TablesInv, FileInv;
      if !HasJob(t.jobs, file) {
        var v := t.(files := t.files[file := t.files[file].(status := Deleted)]);
        JobQueued(v, file, now);
        ExtendsIsTransitive(t, v, Queued(v, file, now));
      }
    }
  }

  lemma ClaimsJoin(before: map<Id, Job>, after: map<Id, Job>, held: map<Id, Claim>, nextToken: Id, now: int)
    requires JobsJoin(before, after) && TokenInv(before, held, nextToken)
    requires forall w :: w in held ==> ClaimStands(before, held[w], now)
    ensures TokenInv(after, held, nextToken)
    ensures forall w :: w in held ==> ClaimStands(after, held[w], now)
  {
    forall w | w in held
      ensures ClaimStands(after, held[w], now)
    {
      assert ClaimStands(before, held[w], now);
    }
  }

  lemma EnqueueIsSound(s: System, file: Id, now: int)
    requires Inv(s, now)
    ensures Inv(s.(tables := Enqueue(s.tables, file, now).0), now) && Extends(s.tables, Enqueue(s.tables, file, now).0)
  {
    hide Enqueue, TablesInv, FilesLast, ConfigsLast, VersionsLast, JobsLast, ClaimIsSafe, ClaimStands, JobsJoin, TokenInv;
    var u := Enqueue(s.tables, file, now).0;
    EnqueueTables(s.tables, file, now);
    ClaimsStaySafe(s.tables, u, s.held, now);
    ClaimsJoin(s.tables.jobs, u.jobs, s.held, s.nextToken, now);
  }

  // The queue.

  /** Replacing one job by a well-shaped successor keeps the tables. */
  lemma JobReplaced(t: Tables, id: Id, j: Job, now: int)
    requires TablesInv(t, now) && id in t.jobs && JobLasts(t.jobs[id], j) && JobShape(t.files, t.configs, j, now)
    ensures TablesInv(t.(jobs := t.jobs[id := j]), now) && Extends(t, t.(jobs := t.jobs[id := j]))
  {
    hide ConfigRows, History, FileInv, JobShape;
    SameAreLast(t);
    hide ConfigsLast, VersionsLast, FilesLast;
  }

  lemma ClaimsAfterLease(s: System, worker: Id, id: Id, now: int)
    requires ClaimRows(s.tables, s.held, now) && TokenInv(s.tables.jobs, s.held, s.nextToken) && worker !in s.held
    requires id in s.tables.jobs && Due(s.tables.jobs[id], now)
    requires JobShape(s.tables.files, s.tables.configs, s.tables.jobs[id], now)
    ensures var j := s.tables.jobs[id];
      var jobs, held := s.tables.jobs[id := Leased(j, s.nextToken, now)], s.held[worker := ClaimOf(id, j, s.nextToken, now)];
      ClaimRows(s.tables.(jobs := jobs), held, now) && TokenInv(jobs, held, s.nextToken + 1)
  {
    var t := s.tables;
    var jobs := t.jobs[id := Leased(t.jobs[id], s.nextToken, now)];
    var held := s.held[worker := ClaimOf(id, t.jobs[id], s.nextToken, now)];
    assert TokenInv(jobs, held, s.nextToken + 1);
    assert ClaimIsSafe(t.files, t.configs, held[worker], now);
    assert forall w :: w in s.held ==> s.held[w].token < s.nextToken;
    hide TokenInv, ClaimIsSafe, SafeAt, JobShape;
    forall w | w in held
      ensures ClaimStands(jobs, held[w], now)
    {
      if w != worker { assert ClaimStands(t.jobs, s.held[w], now); }
    }
  }

  lemma InvParts(s: System, now: int)
    requires Inv(s, now)
    ensures TablesInv(s.tables, now) && ClaimRows(s.tables, s.held, now) && TokenInv(s.tables.jobs, s.held, s.nextToken)
    ensures TokenInv(s.tables.jobs, s.held, s.nextToken + 1)
    ensures forall j :: j in s.tables.jobs ==> JobShape(s.tables.files, s.tables.configs, s.tables.jobs[j], now)
    ensures forall w :: w in s.held ==> ClaimStands(s.tables.jobs, s.held[w], now)
  {
    hide ConfigRows, History, FileInv, OneJobPerFile, JobShape, ClaimStands, ClaimIsSafe;
  }

  lemma ClaimIsSound(s: System, worker: Id, now: int)
    requires Inv(s, now)
    ensures Inv(ClaimStep(s, worker, now), now) && Extends(s.tables, ClaimStep(s, worker, now).tables)
  {
    hide TablesInv, ClaimRows, Extends, TokenInv, ClaimStands, ClaimIsSafe, JobShape, JobLasts, Due;
    InvParts(s, now);
    SameAreLast(s.tables);
    var t := s.tables;
    var next := NextJob(t.jobs, now);
    if worker !in s.held && next.Some? {
      ClaimsAfterLease(s, worker, next.value, now);
      LeaseIsSound(t, next.value, s.nextToken, now);
    }
  }

  lemma LeaseIsSound(t: Tables, id: Id, token: Id, now: int)
    requires TablesInv(t, now) && id in t.jobs && Due(t.jobs[id], now)
    ensures var u := t.(jobs := t.jobs[id := Leased(t.jobs[id], token, now)]); TablesInv(u, now) && Extends(t, u)
  {
    hide IdInv, ConfigRows, History, FileInv, OneJobPerFile;
    assert JobShape(t.files, t.configs, t.jobs[id], now);
    JobReplaced(t, id, Leased(t.jobs[id], token, now), now);
  }

  lemma ClaimsAfterSettle(s: System, worker: Id, j: Job, now: int)
    requires ClaimRows(s.tables, s.held, now) && TokenInv(s.tables.jobs, s.held, s.nextToken)
    requires worker in s.held && Holds(s.tables.jobs, s.held[worker])
    requires j.file == s.tables.jobs[s.held[worker].job].file && j.attempts == s.tables.jobs[s.held[worker].job].attempts
    requires j.lease.None? && j.status != Processing
    ensures var jobs, held := s.tables.jobs[s.held[worker].job := j], s.held - {worker};
      ClaimRows(s.tables.(jobs := jobs), held, now) && TokenInv(jobs, held, s.nextToken)
  {
    var t := s.tables;
    var id := s.held[worker].job;
    var jobs, held := t.jobs[id := j], s.held - {worker};
    assert ClaimStands(t.jobs, s.held[worker], now);
    hide ClaimIsSafe;
    forall w | w in held
      ensures ClaimStands(jobs, held[w], now)
    {
      assert w != worker && ClaimStands(t.jobs, s.held[w], now);
    }
  }

  function Settled(j: Job, c: Claim, deleted: bool, now: int): Job {
    if deleted then j.(status := Completed, config := None, lease := None)
    else j.(status := Waiting, lease := None, nextAttemptAt := now + RetryMinutes(c.attempts) * 60)
  }

  lemma SettledJobIsSound(t: Tables, c: Claim, deleted: bool, now: int)
    requires TablesInv(t, now) && Holds(t.jobs, c)
    ensures var u := t.(jobs := t.jobs[c.job := Settled(t.jobs[c.job], c, deleted, now)]); TablesInv(u, now) && Extends(t, u)
  {
    hide IdInv, ConfigRows, History, FileInv, OneJobPerFile;
    assert JobShape(t.files, t.configs, t.jobs[c.job], now);
    BackOff(c.attempts, c.attempts);
    hide RetryMinutes;
    JobReplaced(t, c.job, Settled(t.jobs[c.job], c, deleted, now), now);
  }

  lemma SettleIsSound(s: System, worker: Id, deleted: bool, now: int)
    requires Inv(s, now)
    ensures Inv(SettleStep(s, worker, deleted, now), now) && Extends(s.tables, SettleStep(s, worker, deleted, now).tables)
  {
    hide TablesInv, ClaimRows, Extends, TokenInv, ClaimStands, ClaimIsSafe, JobShape, RetryMinutes;
    InvParts(s, now);
    FewerClaims(s, worker, now);
    SameAreLast(s.tables);
    if worker in s.held && Holds(s.tables.jobs, s.held[worker]) {
      var c := s.held[worker];
      SettledJobIsSound(s.tables, c, deleted, now);
      ClaimsAfterSettle(s, worker, Settled(s.tables.jobs[c.job], c, deleted, now), now);
    }
  }

  lemma FewerClaims(s: System, worker: Id, now: int)
    requires ClaimRows(s.tables, s.held, now) && TokenInv(s.tables.jobs, s.held, s.nextToken)
    ensures ClaimRows(s.tables, s.held - {worker}, now) && TokenInv(s.tables.jobs, s.held - {worker}, s.nextToken)
  {
    hide ClaimStands, ClaimIsSafe;
  }

  /** Every step keeps the invariant at its own clock, and takes nothing back. */
  lemma StepIsSound(s: System, a: Action, clock: int, now: int)
    requires Inv(s, clock) && clock <= now
    ensures Inv(Act(s, a, now), now) && Extends(s.tables, Act(s, a, now).tables)
  {
    hide Inv, Extends;
    ClockMayAdvance(s, clock, now);
    if a.DoClaim? {
      ClaimIsSound(s, a.worker, now);
    } else if a.DoSettle? {
      SettleIsSound(s, a.worker, a.deleted, now);
    } else if a.DoEnqueue? {
      EnqueueIsSound(s, a.file, now);
    } else {
      QuietStepIsSound(s, a, now);
    }
  }
}
