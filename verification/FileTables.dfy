/**
 Stored files, the storage configurations that tell where they lie, and the queue of
 physical deletions: the tables and what each database access does to them.

 Every instant here is a whole second, as in the tables. Row ids are drawn from one counter.
 */
module FileTables {
  import opened Wrappers

  type Id = nat

  const PROVIDER: Id := 0
  const MINIMUM_DELAY := 65 * 60
  const UPLOAD_GRACE := 4 * 3600 + 5 * 60
  const LEASE_SECONDS := 5 * 60

  datatype Location = Location(provider: Id, endpoint: Id, region: Id, bucket: Id)

  datatype ConfigStatus = Draft | Live | Disabled
  datatype Config = Config(location: Location, status: ConfigStatus, version: int)

  datatype FileStatus = Uploading | Uploaded | Deleted
  datatype File = File(config: Option<Id>, provider: Id, bucket: Id, objectKey: Id, status: FileStatus, urlExpiresAt: Option<int>)

  datatype JobStatus = Waiting | Processing | Completed
  datatype Lease = Lease(token: Id, until: int)

  /** A check in the schema ties the two lease columns to the status `Processing`. */
  datatype Job = Job(
    file: Id,
    config: Option<Id>,
    location: Location,
    objectKey: Id,
    status: JobStatus,
    attempts: nat,
    nextAttemptAt: int,
    lease: Option<Lease>)

  /** `versions` is the history of configurations, by version. */
  datatype Tables = Tables(
    configs: map<Id, Config>,
    versions: map<int, Location>,
    files: map<Id, File>,
    jobs: map<Id, Job>,
    nextId: Id)

  // Storage configurations.

  predicate Serving(c: Config) {
    c.location.provider == PROVIDER && c.status == Live
  }

  function Disable(configs: map<Id, Config>): map<Id, Config> {
    map c | c in configs :: if Serving(configs[c]) then configs[c].(status := Disabled) else configs[c]
  }

  predicate IsLeast(keys: set<Id>, k: Id) {
    k in keys && forall l :: l in keys ==> k <= l
  }

  lemma {:induction false} LeastExists(keys: set<Id>)
    requires keys != {}
    ensures exists k :: IsLeast(keys, k)
  {
    var k :| k in keys;
    if keys == {k} {
      assert IsLeast(keys, k);
    } else {
      var rest := keys - {k};
      LeastExists(rest);
      var m :| IsLeast(rest, m);
      assert keys == rest + {k};
      assert IsLeast(keys, if k < m then k else m);
    }
  }

  function Least(keys: set<Id>): (k: Id)
    requires keys != {}
    ensures IsLeast(keys, k)
  {
    LeastExists(keys);
    assert exists k :: k in keys && IsLeast(keys, k);
    var k :| k in keys && IsLeast(keys, k);
    k
  }

  /** The highest version the provider has, 0 when it has none. */
  function MaxVersion(configs: map<Id, Config>): (v: int)
    ensures v >= 0
    ensures forall c :: c in configs && configs[c].location.provider == PROVIDER ==> configs[c].version <= v
    ensures v == 0 || exists c :: c in configs && configs[c].location.provider == PROVIDER && configs[c].version == v
    decreases |configs.Keys|
  {
    if configs.Keys == {} then 0
    else
      var c := Least(configs.Keys);
      var others := configs - {c};
      assert forall d :: d in configs ==> d == c || (d in others && others[d] == configs[d]);
      var rest := MaxVersion(others);
      if configs[c].location.provider == PROVIDER && configs[c].version > rest then configs[c].version else rest
  }

  /** Appends a configuration and its history row under the next version. */
  function Append(t: Tables, configs: map<Id, Config>, location: Location, status: ConfigStatus): Tables {
    var version := MaxVersion(configs) + 1;
    t.(configs := configs[t.nextId := Config(location, status, version)],
       versions := t.versions[version := location],
       nextId := t.nextId + 1)
  }

  function Save(t: Tables, endpoint: Id, region: Id, bucket: Id, activate: bool): Tables {
    var location := Location(PROVIDER, endpoint, region, bucket);
    if activate then Append(t, Disable(t.configs), location, Live) else Append(t, t.configs, location, Draft)
  }

  datatype ConfigResult = Saved | BadVersion | NoSuchVersion

  function Rollback(t: Tables, source: int): (Tables, ConfigResult) {
    if source <= 0 then (t, BadVersion)
    else if source !in t.versions then (t, NoSuchVersion)
    else (Append(t, Disable(t.configs), t.versions[source], Live), Saved)
  }

  // Files.

  function Create(t: Tables, config: Id, objectKey: Id): Tables {
    if config !in t.configs then t
    else
      var location := t.configs[config].location;
      var file := File(Some(config), location.provider, location.bucket, objectKey, Uploading, None);
      t.(files := t.files[t.nextId := file], nextId := t.nextId + 1)
  }

  /** Records the expiry of a new signed upload URL; a conflict unless the file is still uploading. */
  function ExtendUrl(t: Tables, id: Id, expiresAt: int): (Tables, bool) {
    if id !in t.files || t.files[id].status != Uploading then (t, false)
    else
      var f := t.files[id];
      var later := f.urlExpiresAt.None? || f.urlExpiresAt.value < expiresAt;
      (t.(files := t.files[id := if later then f.(urlExpiresAt := Some(expiresAt)) else f]), true)
  }

  function MarkUploaded(t: Tables, id: Id): Tables {
    if id in t.files && t.files[id].status == Uploading
    then t.(files := t.files[id := t.files[id].(status := Uploaded)]) else t
  }

  function Archive(t: Tables, id: Id): Tables {
    if id in t.files then t.(files := t.files[id := t.files[id].(status := Deleted)]) else t
  }

  /** The sweep of abandoned uploads; `aged` are the files created long enough ago. */
  function SweepUploads(t: Tables, aged: set<Id>, now: int): Tables {
    t.(files := map id | id in t.files ::
      var f := t.files[id];
      if id in aged && f.status == Uploading && (f.urlExpiresAt.None? || f.urlExpiresAt.value + UPLOAD_GRACE <= now)
      then f.(status := Deleted) else f)
  }

  datatype EnqueueResult = Enqueued | NotFound | Conflict

  function Later(a: int, b: int): int {
    if a >= b then a else b
  }

  function SafeAfter(f: File, now: int): int {
    if f.urlExpiresAt.None? then now + MINIMUM_DELAY else Later(now + MINIMUM_DELAY, f.urlExpiresAt.value + UPLOAD_GRACE)
  }

  predicate HasJob(jobs: map<Id, Job>, file: Id) {
    exists j :: j in jobs && jobs[j].file == file
  }

  /** Marks a file deleted and, the first time, queues its physical deletion. */
  function Enqueue(t: Tables, file: Id, now: int): (Tables, EnqueueResult) {
    if file !in t.files then (t, NotFound)
    else
      var f := t.files[file];
      if f.config.None? || f.config.value !in t.configs then (t, Conflict)
      else
        var location := t.configs[f.config.value].location;
        if location.provider != f.provider || location.bucket != f.bucket then (t, Conflict)
        else
          var files := t.files[file := f.(status := Deleted)];
          if HasJob(t.jobs, file) then (t.(files := files), Enqueued)
          else
            var job := Job(file, f.config, location, f.objectKey, Waiting, 0, SafeAfter(f, now), None);
            (t.(files := files, jobs := t.jobs[t.nextId := job], nextId := t.nextId + 1), Enqueued)
  }

  // The deletion queue.

  /** What a worker learns from a claim: the row, its lease and when it was due. */
  datatype Claim = Claim(job: Id, file: Id, config: Option<Id>, location: Location, objectKey: Id, token: Id, attempts: nat, leaseUntil: int, dueAt: int)

  predicate Due(j: Job, now: int) {
    (j.status == Waiting && j.nextAttemptAt <= now) || (j.status == Processing && j.lease.Some? && j.lease.value.until <= now)
  }

  predicate Before(jobs: map<Id, Job>, a: Id, b: Id)
    requires a in jobs && b in jobs
  {
    jobs[a].nextAttemptAt < jobs[b].nextAttemptAt || (jobs[a].nextAttemptAt == jobs[b].nextAttemptAt && a <= b)
  }

  predicate FirstDue(jobs: map<Id, Job>, now: int, id: Id) {
    id in jobs && Due(jobs[id], now) && forall k :: k in jobs && Due(jobs[k], now) ==> Before(jobs, id, k)
  }

  function DueJobs(jobs: map<Id, Job>, now: int): set<Id> {
    set j | j in jobs && Due(jobs[j], now)
  }

  function OpenJobs(jobs: map<Id, Job>): set<Id> {
    set j | j in jobs && jobs[j].status != Completed
  }

  predicate FirstOf(jobs: map<Id, Job>, among: set<Id>, id: Id)
    requires among <= jobs.Keys
  {
    id in among && forall k :: k in among ==> Before(jobs, id, k)
  }

  lemma {:induction false} SomeJobIsFirst(jobs: map<Id, Job>, among: set<Id>)
    requires among <= jobs.Keys && among != {}
    ensures exists id :: FirstOf(jobs, among, id)
  {
    var j :| j in among;
    if among == {j} {
      assert FirstOf(jobs, among, j);
    } else {
      var rest := among - {j};
      SomeJobIsFirst(jobs, rest);
      var m :| FirstOf(jobs, rest, m);
      assert among == rest + {j};
      assert FirstOf(jobs, among, if Before(jobs, j, m) then j else m);
    }
  }

  /** The job a claim takes: it exists exactly when some job is due, and it is the least by due time and id. */
  function NextJob(jobs: map<Id, Job>, now: int): (r: Option<Id>)
    ensures r.Some? ==> FirstDue(jobs, now, r.value)
    ensures r.None? <==> DueJobs(jobs, now) == {}
  {
    if DueJobs(jobs, now) == {} then None
    else
      SomeJobIsFirst(jobs, DueJobs(jobs, now));
      assert exists id :: id in jobs && FirstDue(jobs, now, id) by {
        var id :| FirstOf(jobs, DueJobs(jobs, now), id);
        assert FirstDue(jobs, now, id);
      }
      var id :| id in jobs && FirstDue(jobs, now, id);
      Some(id)
  }

  function Leased(j: Job, token: Id, now: int): Job {
    j.(status := Processing, attempts := j.attempts + 1, lease := Some(Lease(token, now + LEASE_SECONDS)))
  }

  function ClaimOf(id: Id, j: Job, token: Id, now: int): Claim {
    Claim(id, j.file, j.config, j.location, j.objectKey, token, j.attempts + 1, now + LEASE_SECONDS, j.nextAttemptAt)
  }

  function TakeJob(t: Tables, token: Id, now: int): (Tables, Option<Claim>) {
    match NextJob(t.jobs, now)
    case None => (t, None)
    case Some(id) => (t.(jobs := t.jobs[id := Leased(t.jobs[id], token, now)]), Some(ClaimOf(id, t.jobs[id], token, now)))
  }

  predicate Holds(jobs: map<Id, Job>, c: Claim) {
    c.job in jobs && jobs[c.job].status == Processing && jobs[c.job].lease.Some? && jobs[c.job].lease.value.token == c.token
  }

  function Complete(t: Tables, c: Claim): (Tables, bool) {
    if Holds(t.jobs, c)
    then (t.(jobs := t.jobs[c.job := t.jobs[c.job].(status := Completed, config := None, lease := None)]), true)
    else (t, false)
  }

  function Power2(n: nat): nat {
    if n == 0 then 1 else 2 * Power2(n - 1)
  }

  /** Minutes to wait after the given number of attempts. */
  function RetryMinutes(attempts: nat): int {
    var exponent := if attempts <= 1 then 0 else if attempts - 1 > 9 then 9 else attempts - 1;
    if Power2(exponent) > 360 then 360 else Power2(exponent)
  }

  function Retry(t: Tables, c: Claim, now: int): (Tables, bool) {
    if Holds(t.jobs, c)
    then
      var due := now + RetryMinutes(c.attempts) * 60;
      (t.(jobs := t.jobs[c.job := t.jobs[c.job].(status := Waiting, lease := None, nextAttemptAt := due)]), true)
    else (t, false)
  }

  /** The checks made on a claimed row before the object store is asked to delete. */
  predicate LocationAgrees(configs: map<Id, Config>, c: Claim) {
    c.config.Some? && c.config.value in configs && configs[c.config.value].location == c.location
  }

  lemma {:induction false} PowersRise(m: nat, n: nat)
    requires m <= n
    ensures 1 <= Power2(m) <= Power2(n)
    decreases n
  {
    if m < n {
      PowersRise(m, n - 1);
    } else if n > 0 {
      PowersRise(m - 1, n - 1);
    }
  }

  /** The wait is at least a minute and at most six hours, never shrinks as attempts mount, and doubles with each of the first nine. */
  lemma BackOff(m: nat, n: nat)
    requires m <= n
    ensures 1 <= RetryMinutes(m) <= RetryMinutes(n) <= 360
    ensures 1 <= n < 9 ==> RetryMinutes(n + 1) == 2 * RetryMinutes(n)
    ensures n >= 10 ==> RetryMinutes(n) == 360
  {
    var a, b := if m <= 1 then 0 else if m - 1 > 9 then 9 else m - 1, if n <= 1 then 0 else if n - 1 > 9 then 9 else n - 1;
    PowersRise(a, b);
    assert Power2(8) == 256 && Power2(9) == 512 by {
      assert Power2(4) == 16;
    }
    if b <= 8 { PowersRise(b, 8); }
  }
}
