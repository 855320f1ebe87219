/**
 What each access of the file tables leaves in them, told by the rows alone: which
 configuration a save stores, what becomes of a file, what is queued, leased and put back, and
 how long a failed deletion waits.
 */
module FileOutcomes {
  import opened Wrappers
  import opened FileTables
  import opened FileRuns
  import opened FileHistory

  lemma SoundAt(run: seq<Timed>, i: nat)
    requires Monotone(run) && i < |run|
    ensures Inv(At(run, i), run[i].now) && At(run, i + 1) == Act(At(run, i), run[i].action, run[i].now)
  {
    RunIsSound(run, i, run[i].now);
  }

  // Configurations.

  /** A version that is above all those of `configs`, and the next one. */
  predicate NextVersion(configs: map<Id, Config>, v: int) {
    && v >= 1 && (forall c :: c in configs ==> configs[c].version < v)
    && (v == 1 || exists c :: c in configs && configs[c].version == v - 1)
  }

  /** One new configuration at `location`, under the next version, in the history as well; a live one puts the former live one out of use. */
  ghost predicate Appends(t: Tables, u: Tables, location: Location, live: bool) {
    && t.nextId !in t.configs && u.nextId == t.nextId + 1 && u.configs.Keys == t.configs.Keys + {t.nextId}
    && var c := u.configs[t.nextId];
    && c.location == location && c.status == (if live then Live else Draft)
    && NextVersion(t.configs, c.version) && c.version !in t.versions && u.versions == t.versions[c.version := location]
    && (forall d :: d in t.configs ==>
          && u.configs[d].location == t.configs[d].location && u.configs[d].version == t.configs[d].version
          && u.configs[d].status == if live && t.configs[d].status == Live then Disabled else t.configs[d].status)
    && u.files == t.files && u.jobs == t.jobs
  }

  lemma DisabledRows(configs: map<Id, Config>)
    requires ConfigRows(configs)
    ensures var after := Disable(configs);
      after.Keys == configs.Keys
      && forall d :: d in configs ==> after[d] == configs[d].(status := if configs[d].status == Live then Disabled else configs[d].status)
  {
  }

  lemma NewIdAndVersion(t: Tables, v: int)
    requires ConfigInv(t) && !InUse(t.configs, v)
    ensures t.nextId !in t.configs && v !in t.versions
  {
    hide InUse;
  }

  lemma AppendFits(t: Tables, u: Tables, configs: map<Id, Config>, location: Location, live: bool, v: int)
    requires t.nextId !in t.configs && NextVersion(t.configs, v) && v !in t.versions && configs.Keys == t.configs.Keys
    requires u == t.(configs := configs[t.nextId := Config(location, if live then Live else Draft, v)], versions := t.versions[v := location], nextId := t.nextId + 1)
    requires forall d :: d in t.configs ==> configs[d] == t.configs[d].(status := if live && t.configs[d].status == Live then Disabled else t.configs[d].status)
    ensures Appends(t, u, location, live)
  {
    hide NextVersion;
  }

  lemma AppendStores(t: Tables, location: Location, live: bool)
    requires ConfigInv(t) && location.provider == PROVIDER
    ensures Appends(t, Append(t, if live then Disable(t.configs) else t.configs, location, if live then Live else Draft), location, live)
  {
    hide MaxVersion, ConfigRows, Disable, ConfigInv, InUse, NextVersion, Appends, SameButStatus;
    ConfigRowsOf(t);
    var configs := if live then Disable(t.configs) else t.configs;
    DisableKeepsRows(t.configs);
    DisabledRows(t.configs);
    NextOf(t.configs, configs);
    NewIdAndVersion(t, MaxVersion(configs) + 1);
    AppendFits(t, Append(t, configs, location, if live then Live else Draft), configs, location, live, MaxVersion(configs) + 1);
  }

  lemma ConfigRowsOf(t: Tables)
    requires ConfigInv(t)
    ensures ConfigRows(t.configs) && SameButStatus(t.configs, t.configs)
  {
  }

  lemma NextOf(before: map<Id, Config>, after: map<Id, Config>)
    requires ConfigRows(before) && ConfigRows(after) && SameButStatus(before, after)
    ensures NextVersion(before, MaxVersion(after) + 1) && !InUse(before, MaxVersion(after) + 1)
  {
    hide MaxVersion, ConfigRows, InUse, NextVersion, SameButStatus;
    AllOfProvider(after);
    VersionAbove(before, after, MaxVersion(after));
  }

  lemma AllOfProvider(configs: map<Id, Config>)
    requires ConfigRows(configs)
    ensures forall c :: c in configs ==> configs[c].location.provider == PROVIDER
  {
  }

  lemma VersionAbove(before: map<Id, Config>, after: map<Id, Config>, v: int)
    requires SameButStatus(before, after) && v >= 0 && forall c :: c in after ==> after[c].version <= v
    requires v == 0 || exists c :: c in after && after[c].version == v
    ensures NextVersion(before, v + 1) && !InUse(before, v + 1)
  {
    assert forall c :: c in before ==> after[c].version == before[c].version;
    if v != 0 {
      var c :| c in after && after[c].version == v;
      assert c in before && before[c].version == v;
    }
  }

  /** Saving stores the very endpoint, region and bucket asked for, under the next version, live or as a draft, and moves no other configuration. */
  lemma SaveStores(run: seq<Timed>, i: nat, endpoint: Id, region: Id, bucket: Id, activate: bool)
    requires Monotone(run) && i < |run| && run[i].action == DoSave(endpoint, region, bucket, activate)
    ensures var location := Location(provider := 0, endpoint := endpoint, region := region, bucket := bucket);
      Appends(At(run, i).tables, At(run, i + 1).tables, location, activate)
  {
    hide Appends, Inv, ConfigRows, History, Append, Disable;
    SoundAt(run, i);
    ConfigParts(At(run, i), run[i].now);
    AppendStores(At(run, i).tables, Location(PROVIDER, endpoint, region, bucket), activate);
    hide At;
  }

  lemma ConfigParts(s: System, now: int)
    requires Inv(s, now)
    ensures ConfigInv(s.tables)
  {
    hide ConfigRows, History, FileInv, JobRows, OneJobPerFile, ClaimRows, TokenInv;
  }

  /** A rollback stores the location of the version it goes back to in the same way, for a version in use; otherwise it changes nothing. */
  lemma RollbackStores(run: seq<Timed>, i: nat, source: int)
    requires Monotone(run) && i < |run| && run[i].action == DoRollback(source)
    ensures var t, u := At(run, i).tables, At(run, i + 1).tables;
      if source > 0 && InUse(t.configs, source)
      then exists c :: c in t.configs && t.configs[c].version == source && Appends(t, u, t.configs[c].location, true)
      else u == t
  {
    hide Appends, Inv, ConfigRows, Append, Disable;
    SoundAt(run, i);
    ConfigParts(At(run, i), run[i].now);
    var t := At(run, i).tables;
    VersionsInUse(run, i, source);
    hide At;
    if source > 0 && InUse(t.configs, source) {
      var c :| c in t.configs && t.configs[c].version == source;
      AppendStores(t, t.configs[c].location, true);
    }
  }

  // Files.

  /** What a step makes of a file that is there: its status, and the expiry of its upload URL; all else stays. */
  ghost predicate FileMoves(t: Tables, u: Tables, a: Action, now: int, id: Id)
    requires id in t.files
  {
    var f := t.files[id];
    && id in u.files
    && u.files[id] == f.(status := u.files[id].status, urlExpiresAt := u.files[id].urlExpiresAt)
    && u.files[id].status ==
         (if a == DoMarkUploaded(id) && f.status == Uploading then Uploaded
          else if a == DoArchive(id) || a == DoEnqueue(id) then Deleted
          else if a.DoSweepUploads? && id in a.aged && f.status == Uploading && (f.urlExpiresAt.Some? ==> f.urlExpiresAt.value + 14700 <= now) then Deleted
          else f.status)
    && u.files[id].urlExpiresAt ==
         (if a.DoExtendUrl? && a.file == id && f.status == Uploading && (f.urlExpiresAt.Some? ==> f.urlExpiresAt.value < a.expiresAt)
          then Some(a.expiresAt) else f.urlExpiresAt)
  }

  lemma TableStepFiles(t: Tables, a: Action, now: int, id: Id)
    requires id in t.files && !a.DoEnqueue? && IdInv(t)
    ensures FileMoves(t, TableStep(t, a, now), a, now, id)
  {
    hide MaxVersion, Disable;
  }

  lemma EnqueueFiles(t: Tables, file: Id, now: int, id: Id)
    requires id in t.files && FileInv(t.files, t.configs)
    ensures FileMoves(t, Enqueue(t, file, now).0, DoEnqueue(file), now, id)
  {
    hide HasJob;
  }

  lemma FileParts(s: System, now: int)
    requires Inv(s, now)
    ensures IdInv(s.tables) && FileInv(s.tables.files, s.tables.configs)
  {
    hide ConfigRows, History, JobRows, OneJobPerFile, ClaimRows, TokenInv;
  }

  /** In every step of every run, exactly these accesses move a file or prolong its upload. */
  lemma FilesMove(run: seq<Timed>, i: nat, id: Id)
    requires Monotone(run) && i < |run| && id in At(run, i).tables.files
    ensures FileMoves(At(run, i).tables, At(run, i + 1).tables, run[i].action, run[i].now, id)
  {
    hide Inv, FileInv, IdInv, TableStep, FileMoves, ClaimStep, SettleStep;
    SoundAt(run, i);
    FileParts(At(run, i), run[i].now);
    var s, a, now := At(run, i), run[i].action, run[i].now;
    hide At;
    if a.DoClaim? || a.DoSettle? {
      QueueLeavesFiles(s, a, now, id);
    } else if a.DoEnqueue? {
      EnqueueStep(s.tables, a, now);
      EnqueueFiles(s.tables, a.file, now, id);
    } else {
      TableStepFiles(s.tables, a, now, id);
    }
  }

  lemma QueueLeavesFiles(s: System, a: Action, now: int, id: Id)
    requires (a.DoClaim? || a.DoSettle?) && id in s.tables.files
    ensures FileMoves(s.tables, Act(s, a, now).tables, a, now, id)
  {
    hide NextJob, RetryMinutes, Holds;
  }

  /** A new file lies where the configuration it is created under says, and nothing but an upload has happened to it. */
  lemma CreateStores(run: seq<Timed>, i: nat, config: Id, objectKey: Id)
    requires Monotone(run) && i < |run| && run[i].action == DoCreate(config, objectKey)
    ensures var t, u := At(run, i).tables, At(run, i + 1).tables;
      if config !in t.configs then u == t
      else
        && t.nextId !in t.files && u.files.Keys == t.files.Keys + {t.nextId} && u.nextId == t.nextId + 1
        && var f := u.files[t.nextId];
        && f.config == Some(config) && f.objectKey == objectKey && f.status == Uploading && f.urlExpiresAt.None?
        && f.provider == t.configs[config].location.provider && f.bucket == t.configs[config].location.bucket
        && u.configs == t.configs && u.versions == t.versions && u.jobs == t.jobs
  {
    hide Inv;
    SoundAt(run, i);
    FileParts(At(run, i), run[i].now);
    hide At;
  }

  // Queueing.

  predicate IsQueued(t: Tables, file: Id) {
    exists j :: j in t.jobs && t.jobs[j].file == file
  }

  /** The job for the object of file `f`, not due for 65 minutes and until 4 hours and 5 minutes after its upload URL has expired. */
  predicate FreshJob(t: Tables, j: Job, file: Id, now: int)
    requires file in t.files && t.files[file].config.Some? && t.files[file].config.value in t.configs
  {
    var f := t.files[file];
    && j.file == file && j.config == f.config && j.location == t.configs[f.config.value].location && j.objectKey == f.objectKey
    && j.status == Waiting && j.attempts == 0 && j.lease.None?
    && j.nextAttemptAt >= now + 3900
    && (f.urlExpiresAt.Some? ==> j.nextAttemptAt >= f.urlExpiresAt.value + 14700)
    && (j.nextAttemptAt == now + 3900 || (f.urlExpiresAt.Some? && j.nextAttemptAt == f.urlExpiresAt.value + 14700))
  }

  /** Enqueueing queues the first request for a file, once, and leaves every other job alone. */
  lemma EnqueueQueues(run: seq<Timed>, i: nat, file: Id)
    requires Monotone(run) && i < |run| && run[i].action == DoEnqueue(file)
    ensures var t, u := At(run, i).tables, At(run, i + 1).tables;
      if file !in t.files then u == t
      else if IsQueued(t, file) then u == t.(files := u.files)
      else
        && t.nextId !in t.jobs && u.jobs.Keys == t.jobs.Keys + {t.nextId} && (forall j :: j in t.jobs ==> u.jobs[j] == t.jobs[j])
        && t.files[file].config.Some? && t.files[file].config.value in t.configs && FreshJob(t, u.jobs[t.nextId], file, run[i].now)
        && u.configs == t.configs && u.versions == t.versions
  {
    hide Inv;
    SoundAt(run, i);
    FileParts(At(run, i), run[i].now);
    hide At;
    EnqueueStep(At(run, i).tables, run[i].action, run[i].now);
    hide TableStep;
  }

  // Claims.

  /** Step `i` gives `worker` a claim. */
  predicate ClaimsAt(run: seq<Timed>, i: nat, worker: Id) {
    i < |run| && run[i].action == DoClaim(worker) && worker !in At(run, i).held && worker in At(run, i + 1).held
  }

  /** The claim `c` carries all that its job says, and leases it for five minutes. */
  ghost predicate Leases(s: System, t: System, c: Claim, now: int) {
    && c.job in s.tables.jobs
    && var j := s.tables.jobs[c.job];
    && c.file == j.file && c.config == j.config && c.location == j.location && c.objectKey == j.objectKey
    && c.dueAt == j.nextAttemptAt && c.attempts == j.attempts + 1 && c.leaseUntil == now + 300
    && t.tables == s.tables.(jobs := s.tables.jobs[c.job := j.(status := Processing, attempts := j.attempts + 1, lease := Some(Lease(c.token, now + 300)))])
    && (forall w :: w in s.held ==> w in t.held && t.held[w] == s.held[w] && s.held[w].token != c.token)
  }

  lemma ClaimStepLeases(s: System, worker: Id, now: int)
    requires worker !in s.held && TokenInv(s.tables.jobs, s.held, s.nextToken)
    ensures var t := ClaimStep(s, worker, now);
      worker in t.held ==> Leases(s, t, t.held[worker], now) && FirstDue(s.tables.jobs, now, t.held[worker].job)
  {
    hide FirstDue;
  }

  /** A claim leases the job that has been due longest, and hands out what is stored of it. */
  lemma ClaimLeases(run: seq<Timed>, i: nat, worker: Id)
    requires Monotone(run) && ClaimsAt(run, i, worker)
    ensures var s, t := At(run, i), At(run, i + 1);
      Leases(s, t, t.held[worker], run[i].now) && FirstDue(s.tables.jobs, run[i].now, t.held[worker].job)
  {
    hide Inv, ClaimStep, Leases, FirstDue, TablesInv, ClaimRows, JobShape, ClaimStands, TokenInv;
    SoundAt(run, i);
    InvParts(At(run, i), run[i].now);
    ClaimStepLeases(At(run, i), worker, run[i].now);
    hide At;
  }

  /** No job is claimed before it is due. */
  lemma ClaimedWhenDue(run: seq<Timed>, i: nat, worker: Id)
    requires Monotone(run) && ClaimsAt(run, i, worker)
    ensures var j := At(run, i + 1).held[worker].job; j in At(run, i).tables.jobs && At(run, i).tables.jobs[j].nextAttemptAt <= run[i].now
  {
    hide Inv, Leases, ClaimRows, TokenInv, ClaimStands, SafeAt, LocationAgrees, OwnObject;
    ClaimLeases(run, i, worker);
    SoundAt(run, i);
    InvParts(At(run, i), run[i].now);
    hide At, TablesInv;
    var j := At(run, i + 1).held[worker].job;
    assert JobShape(At(run, i).tables.files, At(run, i).tables.configs, At(run, i).tables.jobs[j], run[i].now);
  }

  /** A due time once set holds: nobody claims the job before it, whatever runs in between. */
  lemma NobodyClaimsBefore(run: seq<Timed>, i: nat, k: nat, worker: Id, j: Id)
    requires Monotone(run) && i <= k && ClaimsAt(run, k, worker) && j in At(run, i).tables.jobs && At(run, k + 1).held[worker].job == j
    ensures run[k].now >= At(run, i).tables.jobs[j].nextAttemptAt
  {
    hide ConfigsLast, VersionsLast, FilesLast, At, Act;
    ClaimedWhenDue(run, k, worker);
    NothingIsTakenBack(run, i, k);
  }

  // Reports.

  function Doublings(n: nat): nat {
    if n == 0 then 1 else 2 * Doublings(n - 1)
  }

  /** Seconds to wait after the `n`-th claim of a job has failed: a minute, twice as long each time, at most six hours. */
  function Pause(n: nat): int
    requires n >= 1
  {
    if n < 10 then 60 * Doublings(n - 1) else 6 * 3600
  }

  lemma {:induction false} DoublingsArePowers(n: nat)
    ensures Doublings(n) == Power2(n)
  {
    if n > 0 { DoublingsArePowers(n - 1); }
  }

  lemma PauseOf(n: nat)
    requires n >= 1
    ensures Pause(n) == RetryMinutes(n) * 60
  {
    BackOff(n, n);
    if n < 10 {
      DoublingsArePowers(n - 1);
      FewDoublings(n - 1);
    }
  }

  lemma FewDoublings(n: nat)
    requires n <= 8
    ensures Power2(n) <= 256
  {
    PowersRise(n, 8);
    assert Power2(4) == 16;
    assert Power2(8) == 256;
  }

  /** Step `i` is the report of `worker` on a claim that no later one has overtaken. */
  predicate ReportsAt(run: seq<Timed>, i: nat, worker: Id, deleted: bool) {
    && i < |run| && run[i].action == DoSettle(worker, deleted) && worker in At(run, i).held
    && At(run, i).held[worker].attempts == Claims(run, i, At(run, i).held[worker].job)
  }

  lemma ReportHolds(run: seq<Timed>, i: nat, worker: Id, deleted: bool)
    requires Monotone(run) && ReportsAt(run, i, worker, deleted)
    ensures Holds(At(run, i).tables.jobs, At(run, i).held[worker])
    ensures At(run, i + 1) == SettleStep(At(run, i), worker, deleted, run[i].now) && At(run, i).held[worker].attempts >= 1
  {
    hide Inv;
    ReportAcceptedIffLatest(run, i, worker, deleted);
    SoundAt(run, i);
    HeldIsCounted(run, i, worker);
  }

  lemma {:induction false} HeldIsCounted(run: seq<Timed>, i: nat, worker: Id)
    requires i <= |run| && worker in At(run, i).held
    ensures At(run, i).held[worker].attempts >= 1
  {
    hide NextJob, TableStep, TakeJob, RetryMinutes;
    if i > 0 {
      if worker in At(run, i - 1).held { HeldIsCounted(run, i - 1, worker); }
      ClaimCounts(At(run, i - 1).tables, At(run, i - 1).nextToken, run[i - 1].now);
    }
  }

  lemma ClaimCounts(t: Tables, token: Id, now: int)
    ensures var c := TakeJob(t, token, now).1; c.Some? ==> c.value.attempts >= 1
  {
    hide NextJob;
  }

  /**
   A failed deletion waits: the job is put back without a lease, and is not due before a pause
   of one minute after its first claim, twice that with each further one, and at most six
   hours. Every other row stays as it is.
   */
  lemma FailedDeletionWaits(run: seq<Timed>, i: nat, worker: Id)
    requires Monotone(run) && ReportsAt(run, i, worker, false)
    ensures var s, t := At(run, i), At(run, i + 1);
      var j, n := s.held[worker].job, Claims(run, i, s.held[worker].job);
      && j in s.tables.jobs && n >= 1
      && t.tables == s.tables.(jobs := s.tables.jobs[j := s.tables.jobs[j].(status := Waiting, lease := None, nextAttemptAt := run[i].now + Pause(n))])
      && worker !in t.held
  {
    hide Inv, At, Claims, Pause, RetryMinutes;
    ReportHolds(run, i, worker, false);
    PauseOf(At(run, i).held[worker].attempts);
  }

  /** And nobody claims it before that. */
  lemma NoEarlyRetry(run: seq<Timed>, i: nat, worker: Id, k: nat, other: Id)
    requires Monotone(run) && ReportsAt(run, i, worker, false) && i < k && ClaimsAt(run, k, other)
    requires At(run, k + 1).held[other].job == At(run, i).held[worker].job
    ensures Claims(run, i, At(run, i).held[worker].job) >= 1
    ensures run[k].now >= run[i].now + Pause(Claims(run, i, At(run, i).held[worker].job))
  {
    hide At, Claims, Pause, ClaimsAt;
    FailedDeletionWaits(run, i, worker);
    NobodyClaimsBefore(run, i + 1, k, other, At(run, i).held[worker].job);
  }

  /** A reported deletion completes the job for good: it keeps no configuration and no lease, and nobody claims it again. */
  lemma DeletionCompletes(run: seq<Timed>, i: nat, worker: Id, k: nat)
    requires Monotone(run) && ReportsAt(run, i, worker, true) && i < k <= |run|
    ensures var s, t := At(run, i), At(run, i + 1);
      var j := s.held[worker].job;
      && j in s.tables.jobs && worker !in t.held
      && t.tables == s.tables.(jobs := s.tables.jobs[j := s.tables.jobs[j].(status := Completed, config := None, lease := None)])
      && j in At(run, k).tables.jobs && At(run, k).tables.jobs[j] == t.tables.jobs[j]
  {
    hide Inv, Claims, ConfigsLast, VersionsLast, FilesLast, RetryMinutes;
    ReportHolds(run, i, worker, true);
    NothingIsTakenBack(run, i + 1, k);
    hide At;
  }
}
