/** What holds over whole runs of the file tables: when objects are deleted, by whom, how often, and where. */
module FileHistory {
  import opened Wrappers
  import opened FileTables
  import opened FileRuns

  /** The clock reading a run has reached after `i` steps. */
  function ClockAt(run: seq<Timed>, i: nat): int
    requires 0 < i <= |run|
  {
    run[i - 1].now
  }

  lemma StartIsSound(clock: int)
    ensures Inv(START, clock)
  {
  }

  /** Every state of a run satisfies the invariant at every later clock reading. */
  lemma {:induction false} RunIsSound(run: seq<Timed>, i: nat, now: int)
    requires i <= |run| && Monotone(run) && (i > 0 ==> ClockAt(run, i) <= now)
    ensures Inv(At(run, i), now)
  {
    if i == 0 {
      StartIsSound(now);
    } else {
      hide Inv, Act;
      RunIsSound(run, i - 1, ClockAt(run, i));
      StepIsSound(At(run, i - 1), run[i - 1].action, ClockAt(run, i), ClockAt(run, i));
      ClockMayAdvance(At(run, i), ClockAt(run, i), now);
    }
  }

  lemma EarlierClock(run: seq<Timed>, i: nat)
    requires Monotone(run) && 0 < i <= |run|
    ensures i > 1 ==> ClockAt(run, i - 1) <= ClockAt(run, i)
  {
  }

  /** The history law: locations and versions of configurations never change, files and jobs only move forward. */
  lemma {:induction false} NothingIsTakenBack(run: seq<Timed>, i: nat, j: nat)
    requires i <= j <= |run| && Monotone(run)
    ensures Extends(At(run, i).tables, At(run, j).tables)
    decreases j - i
  {
    hide Inv, Act, Extends;
    if i == j {
      SameAreLast(At(run, i).tables);
    } else {
      EarlierClock(run, j);
      NothingIsTakenBack(run, i, j - 1);
      RunIsSound(run, j - 1, ClockAt(run, j));
      StepIsSound(At(run, j - 1), run[j - 1].action, ClockAt(run, j), ClockAt(run, j));
      ExtendsIsTransitive(At(run, i).tables, At(run, j - 1).tables, At(run, j).tables);
    }
  }

  // Physical deletion.

  predicate Deletes(run: seq<Timed>, i: nat, worker: Id) {
    i < |run| && run[i].action == DoDelete(worker) && worker in At(run, i).held
  }

  lemma ClaimParts(s: System, worker: Id, now: int)
    requires Inv(s, now) && worker in s.held
    ensures ClaimStands(s.tables.jobs, s.held[worker], now) && ClaimIsSafe(s.tables.files, s.tables.configs, s.held[worker], now)
  {
    hide TablesInv, TokenInv, ClaimStands, ClaimIsSafe;
  }

  ghost predicate UrlIsOver(files: map<Id, File>, file: Id, now: int) {
    file in files && files[file].urlExpiresAt.Some? ==> now >= files[file].urlExpiresAt.value + 14700
  }

  lemma UrlIsOverThroughout(before: map<Id, File>, after: map<Id, File>, file: Id, now: int)
    requires FilesLast(before, after)
    ensures file in after && UrlIsOver(after, file, now) ==> UrlIsOver(before, file, now)
    ensures SafeAt(before, file, now) ==> UrlIsOver(after, file, now)
    ensures SafeAt(after, file, now) ==> file in after && UrlIsOver(after, file, now)
  {
    assert file in before ==> FileLasts(before[file], after[file]);
  }

  /** No upload URL of a file, whenever it was signed, is younger than the grace period when the object is deleted. */
  lemma NoEarlyDeletion(run: seq<Timed>, i: nat, worker: Id, k: nat)
    requires Monotone(run) && Deletes(run, i, worker) && k <= |run|
    ensures UrlIsOver(At(run, k).tables.files, At(run, i).held[worker].file, run[i].now)
  {
    hide Inv, ConfigsLast, VersionsLast, JobsLast, FilesLast, At, LocationAgrees, ClaimStands, UrlIsOver;
    RunIsSound(run, i, run[i].now);
    var file := At(run, i).held[worker].file;
    ClaimParts(At(run, i), worker, run[i].now);
    assert SafeAt(At(run, i).tables.files, file, run[i].now);
    if i <= k {
      NothingIsTakenBack(run, i, k);
      UrlIsOverThroughout(At(run, i).tables.files, At(run, k).tables.files, file, run[i].now);
    } else {
      NothingIsTakenBack(run, k, i);
      UrlIsOverThroughout(At(run, k).tables.files, At(run, i).tables.files, file, run[i].now);
    }
  }

  /** A file whose object is deleted was marked deleted before, and stays so. */
  lemma OnlyDeletedFilesAreDeleted(run: seq<Timed>, i: nat, worker: Id, k: nat)
    requires Monotone(run) && Deletes(run, i, worker) && i <= k <= |run|
    ensures var file := At(run, i).held[worker].file;
      file in At(run, k).tables.files && At(run, k).tables.files[file].status == Deleted
  {
    RunIsSound(run, i, run[i].now);
    ClaimParts(At(run, i), worker, run[i].now);
    NothingIsTakenBack(run, i, k);
    hide Inv, ConfigsLast, VersionsLast, JobsLast, At, LocationAgrees, ClaimStands;
  }

  /** The location check before a deletion always passes: configurations a job was copied from keep their location. */
  lemma LocationAlwaysAgrees(run: seq<Timed>, i: nat, worker: Id)
    requires Monotone(run) && Deletes(run, i, worker)
    ensures LocationAgrees(At(run, i).tables.configs, At(run, i).held[worker])
  {
    RunIsSound(run, i, run[i].now);
    ClaimParts(At(run, i), worker, run[i].now);
  }

  /** The conflicts enqueueing reports for a file without a matching configuration never arise. */
  lemma EnqueueNeverConflicts(run: seq<Timed>, i: nat, file: Id, now: int)
    requires Monotone(run) && i <= |run| && (i > 0 ==> ClockAt(run, i) <= now)
    ensures Enqueue(At(run, i).tables, file, now).1 == if file in At(run, i).tables.files then Enqueued else NotFound
  {
    RunIsSound(run, i, now);
    EnqueueOutcome(At(run, i).tables, file, now);
  }

  /** What a worker deletes is the object of the file it was asked to delete, by its key and in its bucket, at every time of the run. */
  lemma DeletesOwnObject(run: seq<Timed>, i: nat, worker: Id, k: nat)
    requires Monotone(run) && Deletes(run, i, worker) && k <= |run|
    requires At(run, i).held[worker].file in At(run, k).tables.files
    ensures var c := At(run, i).held[worker]; OwnObject(At(run, k).tables.files, c.file, c.location, c.objectKey)
  {
    hide Inv, ConfigsLast, VersionsLast, JobsLast, At, LocationAgrees, ClaimStands, SafeAt;
    RunIsSound(run, i, run[i].now);
    ClaimParts(At(run, i), worker, run[i].now);
    if i <= k { NothingIsTakenBack(run, i, k); } else { NothingIsTakenBack(run, k, i); }
  }

  // Leases.

  /** Two leases that have not run out are never for the same job. */
  lemma OneLiveLease(run: seq<Timed>, i: nat, v: Id, w: Id, now: int)
    requires Monotone(run) && i <= |run| && (i > 0 ==> ClockAt(run, i) <= now)
    requires v in At(run, i).held && w in At(run, i).held && At(run, i).held[v].job == At(run, i).held[w].job
    requires At(run, i).held[v].leaseUntil > now && At(run, i).held[w].leaseUntil > now
    ensures v == w
  {
    RunIsSound(run, i, now);
    ClaimParts(At(run, i), v, now);
    ClaimParts(At(run, i), w, now);
    assert TokenInv(At(run, i).tables.jobs, At(run, i).held, At(run, i).nextToken);
    hide At, Inv;
  }

  /** The job that a step claims. */
  function Claimed(s: System, a: Action, now: int): Option<Id> {
    if a.DoClaim? && a.worker !in s.held then NextJob(s.tables.jobs, now) else None
  }

  /** How many of the first `i` steps claim job `j`. */
  function Claims(run: seq<Timed>, i: nat, j: Id): nat
    requires i <= |run|
  {
    if i == 0 then 0
    else Claims(run, i - 1, j) + if Claimed(At(run, i - 1), run[i - 1].action, run[i - 1].now) == Some(j) then 1 else 0
  }

  /** The job that a step reports as deleted, if the report is accepted. */
  function Finished(s: System, a: Action): Option<Id> {
    if a.DoSettle? && a.deleted && a.worker in s.held && Holds(s.tables.jobs, s.held[a.worker]) then Some(s.held[a.worker].job) else None
  }

  function Completions(run: seq<Timed>, i: nat, j: Id): nat
    requires i <= |run|
  {
    if i == 0 then 0
    else Completions(run, i - 1, j) + if Finished(At(run, i - 1), run[i - 1].action) == Some(j) then 1 else 0
  }

  function AttemptsOf(t: Tables, j: Id): nat {
    if j in t.jobs then t.jobs[j].attempts else 0
  }

  function DoneOf(t: Tables, j: Id): nat {
    if j in t.jobs && t.jobs[j].status == Completed then 1 else 0
  }

  lemma OthersKeepJobs(t: Tables, a: Action, now: int)
    requires !a.DoEnqueue?
    ensures TableStep(t, a, now).jobs == t.jobs
  {
    hide MaxVersion, Disable;
  }

  lemma EnqueueStep(t: Tables, a: Action, now: int)
    requires a.DoEnqueue?
    ensures TableStep(t, a, now) == Enqueue(t, a.file, now).0
  {
    hide Enqueue;
  }

  lemma QueueStep(s: System, a: Action, j: Id, now: int)
    requires Inv(s, now)
    ensures AttemptsOf(Act(s, a, now).tables, j) == AttemptsOf(s.tables, j) + if Claimed(s, a, now) == Some(j) then 1 else 0
    ensures DoneOf(Act(s, a, now).tables, j) == DoneOf(s.tables, j) + if Finished(s, a) == Some(j) then 1 else 0
  {
    hide TablesInv, ClaimRows, TokenInv, RetryMinutes, TableStep;
    InvParts(s, now);
    if a.DoEnqueue? {
      EnqueueTables(s.tables, a.file, now);
      EnqueueStep(s.tables, a, now);
    } else {
      OthersKeepJobs(s.tables, a, now);
    }
    hide ConfigsLast, FilesLast, VersionsLast, SafeAt, ClaimStands;
  }

  /** The attempt counter of a job is the number of claims it has had. */
  lemma {:induction false} AttemptsCountClaims(run: seq<Timed>, i: nat, j: Id)
    requires Monotone(run) && i <= |run|
    ensures AttemptsOf(At(run, i).tables, j) == Claims(run, i, j)
  {
    if i > 0 {
      hide Inv, Act, Claimed, AttemptsOf, DoneOf, Finished;
      AttemptsCountClaims(run, i - 1, j);
      RunIsSound(run, i - 1, ClockAt(run, i));
      QueueStep(At(run, i - 1), run[i - 1].action, j, ClockAt(run, i));
    }
  }

  /** A job is completed exactly when one report of it has been accepted, and no second one ever is. */
  lemma {:induction false} CompletedAtMostOnce(run: seq<Timed>, i: nat, j: Id)
    requires Monotone(run) && i <= |run|
    ensures Completions(run, i, j) == DoneOf(At(run, i).tables, j) <= 1
  {
    if i > 0 {
      hide Inv, Act, Claimed, AttemptsOf, Finished;
      CompletedAtMostOnce(run, i - 1, j);
      RunIsSound(run, i - 1, ClockAt(run, i));
      QueueStep(At(run, i - 1), run[i - 1].action, j, ClockAt(run, i));
    }
  }

  /**
   Fencing: a report is accepted exactly when no other claim of the job has been made since
   the reporter's own, and a report that comes too late changes no table. A lease that has
   not run out is always accepted.
   */
  lemma ReportAcceptedIffLatest(run: seq<Timed>, i: nat, worker: Id, deleted: bool)
    requires Monotone(run) && i < |run| && run[i].action == DoSettle(worker, deleted) && worker in At(run, i).held
    ensures var c := At(run, i).held[worker];
      && (Holds(At(run, i).tables.jobs, c) <==> c.attempts == Claims(run, i, c.job))
      && (!Holds(At(run, i).tables.jobs, c) ==> At(run, i + 1).tables == At(run, i).tables)
      && (c.leaseUntil > run[i].now ==> Holds(At(run, i).tables.jobs, c))
  {
    hide Inv, ClaimIsSafe;
    RunIsSound(run, i, run[i].now);
    ClaimParts(At(run, i), worker, run[i].now);
    AttemptsCountClaims(run, i, At(run, i).held[worker].job);
    assert At(run, i + 1) == SettleStep(At(run, i), worker, deleted, run[i].now);
  }

  /** A claim carries the number of claims of its job so far, counting itself. */
  lemma ClaimNumbersItself(run: seq<Timed>, i: nat, worker: Id)
    requires Monotone(run) && i < |run| && run[i].action == DoClaim(worker) && worker !in At(run, i).held
    ensures worker in At(run, i + 1).held <==> DueJobs(At(run, i).tables.jobs, run[i].now) != {}
    ensures worker in At(run, i + 1).held ==>
      var c := At(run, i + 1).held[worker]; c.attempts == Claims(run, i + 1, c.job) == Claims(run, i, c.job) + 1
  {
    assert At(run, i + 1) == ClaimStep(At(run, i), worker, run[i].now);
    if worker in At(run, i + 1).held {
      AttemptsCountClaims(run, i, At(run, i + 1).held[worker].job);
    }
  }

  // Configurations.

  predicate LiveConfig(configs: map<Id, Config>, c: Id) {
    c in configs && configs[c].status == Live
  }

  /** Saving or rolling back gives the new configuration a version above every other, and at most one is ever live. */
  lemma ConfigsAreVersioned(run: seq<Timed>, i: nat, c: Id, d: Id)
    requires Monotone(run) && i <= |run|
    requires c in At(run, i).tables.configs && d in At(run, i).tables.configs
    ensures var configs := At(run, i).tables.configs;
      && (c < d <==> configs[c].version < configs[d].version)
      && (LiveConfig(configs, c) && LiveConfig(configs, d) ==> c == d)
  {
    RunIsSound(run, i, if i > 0 then ClockAt(run, i) else 0);
    assert ConfigRows(At(run, i).tables.configs);
  }

  /** The live configuration, if any, is `c`, and it is at `location`. */
  ghost predicate OnlyLive(configs: map<Id, Config>, c: Id, location: Location) {
    c in configs && configs[c].location == location && forall d :: LiveConfig(configs, d) <==> d == c
  }

  lemma AppendedIsLive(t: Tables, location: Location)
    requires IdInv(t) && ConfigRows(t.configs)
    ensures OnlyLive(Append(t, Disable(t.configs), location, Live).configs, t.nextId, location)
  {
    hide MaxVersion, ConfigRows;
    DisableKeepsRows(t.configs);
  }

  lemma VersionsInUse(run: seq<Timed>, i: nat, source: int)
    requires Monotone(run) && i <= |run|
    ensures var t := At(run, i).tables;
      IdInv(t) && ConfigRows(t.configs) && (source in t.versions <==> InUse(t.configs, source))
      && (source in t.versions ==> t.versions[source].provider == PROVIDER)
      && (forall c :: c in t.configs && t.configs[c].version == source ==> source in t.versions && t.versions[source] == t.configs[c].location)
  {
    RunIsSound(run, i, if i > 0 then ClockAt(run, i) else 0);
    hide At, FileInv, JobRows, OneJobPerFile, ClaimRows, TokenInv;
  }

  /** A rollback succeeds exactly for the version of some configuration, and then the location of that version is the only live one. */
  lemma RollbackRestores(run: seq<Timed>, i: nat, source: int)
    requires Monotone(run) && i <= |run|
    ensures var t := At(run, i).tables;
      var (u, r) := Rollback(t, source);
      && (r == Saved <==> source > 0 && InUse(t.configs, source))
      && (r != Saved ==> u == t)
      && (r == Saved ==> forall c :: c in t.configs && t.configs[c].version == source ==> OnlyLive(u.configs, t.nextId, t.configs[c].location))
  {
    hide At, IdInv, ConfigRows, Append, Disable, OnlyLive, InUse;
    VersionsInUse(run, i, source);
    if source in At(run, i).tables.versions {
      AppendedIsLive(At(run, i).tables, At(run, i).tables.versions[source]);
    }
  }

  /** Saving makes the new configuration the live one, or as a draft leaves the live one alone. */
  lemma SaveTakesOver(run: seq<Timed>, i: nat, endpoint: Id, region: Id, bucket: Id, activate: bool, c: Id)
    requires Monotone(run) && i <= |run|
    ensures var t := At(run, i).tables;
      LiveConfig(Save(t, endpoint, region, bucket, activate).configs, c) <==>
        if activate then c == t.nextId else LiveConfig(t.configs, c)
  {
    hide At, IdInv, ConfigRows, Append, Disable, OnlyLive, LiveConfig;
    VersionsInUse(run, i, 0);
    var t := At(run, i).tables;
    if activate {
      AppendedIsLive(t, Location(PROVIDER, endpoint, region, bucket));
      OnlyLiveIsLive(Append(t, Disable(t.configs), Location(PROVIDER, endpoint, region, bucket), Live).configs, t.nextId, Location(PROVIDER, endpoint, region, bucket), c);
    } else {
      DraftIsNotLive(t, Location(PROVIDER, endpoint, region, bucket), c);
    }
  }

  lemma OnlyLiveIsLive(configs: map<Id, Config>, live: Id, location: Location, c: Id)
    requires OnlyLive(configs, live, location)
    ensures LiveConfig(configs, c) <==> c == live
  {
  }

  lemma DraftIsNotLive(t: Tables, location: Location, c: Id)
    requires IdInv(t)
    ensures LiveConfig(Append(t, t.configs, location, Draft).configs, c) <==> LiveConfig(t.configs, c)
  {
    hide MaxVersion;
  }
}
