/**
 The file tables as the service updates them, and the loop in which a worker empties the
 deletion queue while other workers and requests go on.

 The object remembers its own run: `Valid` says that the tables are what that run leads to,
 so every theorem of FileHistory speaks about them.
 */
module FileDatabase {
  import opened Wrappers
  import opened FileTables
  import opened FileRuns
  import opened FileHistory

  /** What somebody else does, so many seconds after whatever came before. */
  datatype Delayed = Delayed(action: Action, wait: nat)

  /** One turn of the loop as its surroundings see it. */
  datatype Turn = Turn(before: seq<Delayed>, claimWait: nat, during: seq<Delayed>, deleted: bool, reportWait: nat)

  datatype Summary = Summary(due: nat, notDue: nat, processed: nat, completed: nat, failed: nat, leaseLost: nat, pending: nat)
  datatype CleanupResult = BadRequest | Done(summary: Summary)

  predicate By(a: Action, worker: Id) {
    (a.DoClaim? || a.DoDelete? || a.DoSettle?) && a.worker == worker
  }

  predicate Foreign(script: seq<Delayed>, worker: Id) {
    forall k :: 0 <= k < |script| ==> !By(script[k].action, worker)
  }

  predicate ForeignTurn(turn: Turn, worker: Id) {
    Foreign(turn.before, worker) && Foreign(turn.during, worker)
  }

  datatype Event = Nothing | Taken | Finished | Requeued | TooLate

  /** What a step means to one worker. */
  function EventOf(s: System, a: Action, worker: Id, now: int): Event {
    if !By(a, worker) then Nothing
    else if a.DoClaim? then if Claimed(s, a, now).Some? then Taken else Nothing
    else if a.DoSettle? && worker in s.held then
      if !Holds(s.tables.jobs, s.held[worker]) then TooLate else if a.deleted then Finished else Requeued
    else Nothing
  }

  /** What a worker has done: jobs taken, finished, put back, and reports that came too late. */
  datatype Tally = Tally(taken: nat, finished: nat, requeued: nat, tooLate: nat)

  function Counted(t: Tally, e: Event): Tally {
    match e
    case Nothing => t
    case Taken => t.(taken := t.taken + 1)
    case Finished => t.(finished := t.finished + 1)
    case Requeued => t.(requeued := t.requeued + 1)
    case TooLate => t.(tooLate := t.tooLate + 1)
  }

  /** The tally of a worker over the first `i` steps. */
  function TallyAt(run: seq<Timed>, i: nat, worker: Id): Tally
    requires i <= |run|
  {
    if i == 0 then Tally(0, 0, 0, 0)
    else Counted(TallyAt(run, i - 1, worker), EventOf(At(run, i - 1), run[i - 1].action, worker, run[i - 1].now))
  }

  function TallyOf(run: seq<Timed>, worker: Id): Tally {
    TallyAt(run, |run|, worker)
  }

  lemma {:induction false} PrefixRuns(run: seq<Timed>, more: seq<Timed>, i: nat)
    requires i <= |run|
    ensures At(run + more, i) == At(run, i)
  {
    if i > 0 { PrefixRuns(run, more, i - 1); }
  }

  lemma {:induction false} PrefixTallies(run: seq<Timed>, more: seq<Timed>, i: nat, worker: Id)
    requires i <= |run|
    ensures TallyAt(run + more, i, worker) == TallyAt(run, i, worker)
  {
    hide At, EventOf, Counted;
    if i > 0 {
      PrefixRuns(run, more, i - 1);
      PrefixTallies(run, more, i - 1, worker);
      assert (run + more)[i - 1] == run[i - 1];
    }
  }

  /** One more step of a run. */
  lemma StepTaken(run: seq<Timed>, a: Action, now: int)
    requires Monotone(run) && (|run| > 0 ==> run[|run| - 1].now <= now)
    ensures Monotone(run + [Timed(a, now)])
    ensures At(run + [Timed(a, now)], |run| + 1) == Act(At(run, |run|), a, now)
  {
    PrefixRuns(run, [Timed(a, now)], |run|);
  }

  lemma TallyGrows(run: seq<Timed>, a: Action, now: int, worker: Id)
    ensures TallyOf(run + [Timed(a, now)], worker) == Counted(TallyOf(run, worker), EventOf(At(run, |run|), a, worker, now))
  {
    hide EventOf, Counted;
    PrefixRuns(run, [Timed(a, now)], |run|);
    PrefixTallies(run, [Timed(a, now)], |run|, worker);
  }

  /** Somebody else's step neither gives a worker a claim nor takes its claim away. */
  lemma OthersLeaveClaims(s: System, a: Action, worker: Id, now: int)
    requires !By(a, worker)
    ensures worker in Act(s, a, now).held <==> worker in s.held
    ensures worker in s.held ==> Act(s, a, now).held[worker] == s.held[worker]
    ensures EventOf(s, a, worker, now) == Nothing
  {
  }

  /** How many jobs are open after the first `i` steps of a run. */
  function OpenAfter(run: seq<Timed>, i: nat): nat
    requires i <= |run|
  {
    |OpenJobs(At(run, i).tables.jobs)|
  }

  /** The difference, but never below zero. */
  function Saturated(a: nat, b: nat): nat {
    if a >= b then a - b else 0
  }

  lemma OpenStays(run: seq<Timed>, more: seq<Timed>)
    requires run <= more
    ensures OpenAfter(more, |run|) == OpenAfter(run, |run|)
  {
    assert more == run + more[|run|..];
    PrefixRuns(run, more[|run|..], |run|);
  }

  class Database {
    var configs: map<Id, Config>
    var versions: map<int, Location>
    var files: map<Id, File>
    var jobs: map<Id, Job>
    var nextId: Id
    var nextToken: Id
    var held: map<Id, Claim>
    var clock: int
    ghost var run: seq<Timed>

    function View(): System
      reads this
    {
      System(Tables(configs, versions, files, jobs, nextId), held, nextToken)
    }

    ghost predicate Valid()
      reads this
    {
      Monotone(run) && View() == At(run, |run|) && (|run| > 0 ==> run[|run| - 1].now <= clock)
    }

    constructor (now: int)
      ensures Valid() && View() == START && run == []
    {
      configs, versions, files, jobs, nextId := map[], map[], map[], map[], 0;
      nextToken, held, clock, run := 0, map[], now, [];
    }

    lemma CountsOpen()
      requires Valid()
      ensures |OpenJobs(jobs)| == OpenAfter(run, |run|)
    {
      hide At, OpenJobs, Monotone;
    }

    /** Time passes. */
    method Wait(seconds: nat)
      requires Valid()
      modifies this`clock
      ensures Valid() && clock == old(clock) + seconds
    {
      clock := clock + seconds;
    }

    ghost method Record(a: Action)
      requires Monotone(run) && (|run| > 0 ==> run[|run| - 1].now <= clock)
      requires View() == Act(At(run, |run|), a, clock)
      modifies this`run
      ensures Valid() && run == old(run) + [Timed(a, clock)]
    {
      StepTaken(run, a, clock);
      run := run + [Timed(a, clock)];
    }

    method SaveConfig(endpoint: Id, region: Id, bucket: Id, activate: bool)
      requires Valid()
      modifies this
      ensures Valid() && clock == old(clock)
      ensures run == old(run) + [Timed(DoSave(endpoint, region, bucket, activate), clock)]
      ensures View() == old(View()).(tables := Save(old(View()).tables, endpoint, region, bucket, activate))
    {
      hide MaxVersion, At;
      if activate {
        configs := map c | c in configs :: if Serving(configs[c]) then configs[c].(status := Disabled) else configs[c];
      }
      var version := MaxVersion(configs) + 1;
      var location := Location(PROVIDER, endpoint, region, bucket);
      configs := configs[nextId := Config(location, if activate then Live else Draft, version)];
      versions := versions[version := location];
      nextId := nextId + 1;
      Record(DoSave(endpoint, region, bucket, activate));
    }

    method RollbackConfig(source: int) returns (r: ConfigResult)
      requires Valid()
      modifies this
      ensures Valid() && clock == old(clock) && run == old(run) + [Timed(DoRollback(source), clock)]
      ensures (View().tables, r) == Rollback(old(View()).tables, source) && held == old(held) && nextToken == old(nextToken)
    {
      hide MaxVersion, At;
      if source <= 0 {
        r := BadVersion;
      } else if source !in versions {
        r := NoSuchVersion;
      } else {
        var location := versions[source];
        configs := map c | c in configs :: if Serving(configs[c]) then configs[c].(status := Disabled) else configs[c];
        var version := MaxVersion(configs) + 1;
        configs := configs[nextId := Config(location, Live, version)];
        versions := versions[version := location];
        nextId := nextId + 1;
        r := Saved;
      }
      Record(DoRollback(source));
    }

    method ExtendUploadUrl(file: Id, expiresAt: int) returns (ok: bool)
      requires Valid()
      modifies this
      ensures Valid() && clock == old(clock) && run == old(run) + [Timed(DoExtendUrl(file, expiresAt), clock)]
      ensures (View().tables, ok) == ExtendUrl(old(View()).tables, file, expiresAt) && held == old(held) && nextToken == old(nextToken)
    {
      ok := file in files && files[file].status == Uploading;
      if ok {
        var f := files[file];
        if f.urlExpiresAt.None? || f.urlExpiresAt.value < expiresAt {
          files := files[file := f.(urlExpiresAt := Some(expiresAt))];
        } else {
          files := files[file := f];
        }
      }
      Record(DoExtendUrl(file, expiresAt));
    }

    method EnqueueDeletedFile(file: Id) returns (r: EnqueueResult)
      requires Valid()
      modifies this
      ensures Valid() && clock == old(clock) && run == old(run) + [Timed(DoEnqueue(file), clock)]
      ensures (View().tables, r) == Enqueue(old(View()).tables, file, clock) && held == old(held) && nextToken == old(nextToken)
      ensures r == if file in old(files) then Enqueued else NotFound
    {
      EnqueueNeverConflicts(run, |run|, file, clock);
      if file !in files {
        r := NotFound;
      } else if files[file].config.None? || files[file].config.value !in configs {
        r := Conflict;
      } else {
        var f := files[file];
        var location := configs[f.config.value].location;
        if location.provider != f.provider || location.bucket != f.bucket {
          r := Conflict;
        } else {
          files := files[file := f.(status := Deleted)];
          if !HasJob(jobs, file) {
            jobs := jobs[nextId := Job(file, f.config, location, f.objectKey, Waiting, 0, SafeAfter(f, clock), None)];
            nextId := nextId + 1;
          }
          r := Enqueued;
        }
      }
      Record(DoEnqueue(file));
    }

    /** Takes the job that has been due longest, if there is one, under a new lease. */
    method ClaimJob(worker: Id) returns (c: Option<Claim>)
      requires Valid() && worker !in held
      modifies this
      ensures Valid() && clock == old(clock) && run == old(run) + [Timed(DoClaim(worker), clock)]
      ensures View() == ClaimStep(old(View()), worker, clock)
      ensures c.Some? <==> worker in held
      ensures c.Some? ==> c.value == held[worker]
      ensures c.None? ==> jobs == old(jobs)
      ensures c.None? <==> DueJobs(old(jobs), clock) == {}
      ensures TallyOf(run, worker) == Counted(TallyOf(old(run), worker), if c.Some? then Taken else Nothing)
    {
      TallyGrows(run, DoClaim(worker), clock, worker);
      hide At, TallyOf;
      c := None;
      var next := NextJob(jobs, clock);
      if next.Some? {
        var j := jobs[next.value];
        c := Some(ClaimOf(next.value, j, nextToken, clock));
        jobs := jobs[next.value := Leased(j, nextToken, clock)];
        held := held[worker := c.value];
      }
      nextToken := nextToken + 1;
      Record(DoClaim(worker));
    }

    /** Reports the outcome of a deletion: completes the job or puts it back, if the claim still stands. */
    method Report(worker: Id, deleted: bool) returns (accepted: bool)
      requires Valid() && worker in held
      modifies this
      ensures Valid() && clock == old(clock) && run == old(run) + [Timed(DoSettle(worker, deleted), clock)]
      ensures View() == SettleStep(old(View()), worker, deleted, clock)
      ensures accepted == Holds(old(jobs), old(held)[worker]) && worker !in held
      ensures TallyOf(run, worker) == Counted(TallyOf(old(run), worker), if !accepted then TooLate else if deleted then Finished else Requeued)
    {
      TallyGrows(run, DoSettle(worker, deleted), clock, worker);
      hide RetryMinutes, At, TallyOf;
      var c := held[worker];
      accepted := Holds(jobs, c);
      if accepted {
        var j := jobs[c.job];
        if deleted {
          jobs := jobs[c.job := j.(status := Completed, config := None, lease := None)];
        } else {
          jobs := jobs[c.job := j.(status := Waiting, lease := None, nextAttemptAt := clock + RetryMinutes(c.attempts) * 60)];
        }
      }
      held := held - {worker};
      Record(DoSettle(worker, deleted));
    }

    /** Everybody else carries on for a while. */
    method Others(script: seq<Delayed>, ghost worker: Id)
      requires Valid() && Foreign(script, worker)
      modifies this
      ensures Valid() && |run| == |old(run)| + |script| && old(run) <= run && clock >= old(clock)
      ensures worker in held <==> worker in old(held)
      ensures worker in held ==> held[worker] == old(held)[worker]
      ensures TallyOf(run, worker) == TallyOf(old(run), worker)
    {
      var k := 0;
      while k < |script|
        invariant 0 <= k <= |script| && Valid() && |run| == |old(run)| + k && old(run) <= run && clock >= old(clock)
        invariant worker in held <==> worker in old(held)
        invariant worker in held ==> held[worker] == old(held)[worker]
        invariant TallyOf(run, worker) == TallyOf(old(run), worker)
      {
        hide Monotone, Act, EventOf, TallyOf;
        clock := clock + script[k].wait;
        var a := script[k].action;
        OthersLeaveClaims(View(), a, worker, clock);
        TallyGrows(run, a, clock, worker);
        Perform(Act(View(), a, clock), a);
        k := k + 1;
      }
    }

    method Perform(s: System, ghost a: Action)
      requires Monotone(run) && View() == At(run, |run|) && (|run| > 0 ==> run[|run| - 1].now <= clock)
      requires s == Act(View(), a, clock)
      modifies this
      ensures Valid() && View() == s && clock == old(clock) && run == old(run) + [Timed(a, clock)]
    {
      configs, versions, files, jobs, nextId := s.tables.configs, s.tables.versions, s.tables.files, s.tables.jobs, s.tables.nextId;
      nextToken, held := s.nextToken, s.held;
      Record(a);
    }

    /** One turn of the clean-up loop: claims a job, has the object deleted, and reports the outcome. */
    method CleanupTurn(worker: Id, turn: Turn) returns (e: Event)
      requires Valid() && worker !in held && ForeignTurn(turn, worker)
      modifies this
      ensures Valid() && old(run) <= run && worker !in held
      ensures e == Nothing ==> DueJobs(jobs, clock) == {} && TallyOf(run, worker) == TallyOf(old(run), worker)
      ensures e != Nothing ==> e != Taken && TallyOf(run, worker) == Counted(Counted(TallyOf(old(run), worker), Taken), e)
    {
      hide Valid, View, ClaimStep, SettleStep, Holds, NextJob, TallyOf, Foreign, At;
      Others(turn.before, worker);
      Wait(turn.claimWait);
      var c := ClaimJob(worker);
      if c.None? { return Nothing; }
      Others(turn.during, worker);
      Wait(turn.reportWait);
      var accepted := Report(worker, turn.deleted);
      return if !accepted then TooLate else if turn.deleted then Finished else Requeued;
    }

    /**
     The clean-up loop of one worker. `turns` and `opening` tell what happens around it. It
     works through at most `limit` jobs, and stops earlier only when no job was due; every
     claim it made is counted exactly once under what became of it.
     */
    method CleanupDeletedFiles(worker: Id, dryRun: bool, limit: int, opening: seq<Delayed>, turns: nat -> Turn) returns (r: CleanupResult)
      requires Valid() && worker !in held && Foreign(opening, worker)
      requires forall n: nat :: ForeignTurn(turns(n), worker)
      modifies this
      ensures Valid() && old(run) <= run && worker !in held
      ensures r == BadRequest <==> !(1 <= limit <= 1000)
      ensures r == BadRequest ==> run == old(run)
      ensures r.Done? ==> r.summary.processed == r.summary.completed + r.summary.failed + r.summary.leaseLost <= limit
      ensures r.Done? ==> r.summary.processed == TallyOf(run, worker).taken - TallyOf(old(run), worker).taken
      ensures r.Done? ==> r.summary.completed == TallyOf(run, worker).finished - TallyOf(old(run), worker).finished
      ensures r.Done? ==> r.summary.failed == TallyOf(run, worker).requeued - TallyOf(old(run), worker).requeued
      ensures r.Done? ==> r.summary.leaseLost == TallyOf(run, worker).tooLate - TallyOf(old(run), worker).tooLate
      ensures r.Done? && !dryRun && r.summary.processed < limit ==> DueJobs(jobs, clock) == {}
      ensures r.Done? && !dryRun ==> r.summary.pending == |OpenJobs(jobs)|
      ensures r.Done? && dryRun ==> r.summary.processed == 0 && |run| == |old(run)| + |opening| && r.summary.pending == |OpenJobs(jobs)|
      ensures r.Done? ==> r.summary.due == |DueJobs(old(jobs), old(clock))|
      ensures r.Done? ==> |old(run)| + |opening| <= |run|
      ensures r.Done? ==> r.summary.notDue == Saturated(OpenAfter(run, |old(run)| + |opening|), r.summary.due)
    {
      hide Valid, View, Holds, NextJob, TallyOf, Foreign, At, OpenAfter, OpenJobs, DueJobs;
      if limit < 1 || limit > 1000 { return BadRequest; }
      var due := |DueJobs(jobs, clock)|;
      Others(opening, worker);
      ghost var first := run;
      assert |OpenJobs(jobs)| == OpenAfter(run, |run|) by { CountsOpen(); }
      var pending := |OpenJobs(jobs)|;
      var notDue := if pending >= due then pending - due else 0;
      var processed, completed, failed, leaseLost := 0, 0, 0, 0;
      if dryRun { return Done(Summary(due, notDue, 0, 0, 0, 0, pending)); }
      var idle := false;
      while processed < limit && !idle
        invariant Valid() && old(run) <= run && first <= run && worker !in held
        invariant 0 <= processed == completed + failed + leaseLost <= limit
        invariant completed >= 0 && failed >= 0 && leaseLost >= 0
        invariant processed == TallyOf(run, worker).taken - TallyOf(old(run), worker).taken
        invariant completed == TallyOf(run, worker).finished - TallyOf(old(run), worker).finished
        invariant failed == TallyOf(run, worker).requeued - TallyOf(old(run), worker).requeued
        invariant leaseLost == TallyOf(run, worker).tooLate - TallyOf(old(run), worker).tooLate
        invariant idle ==> DueJobs(jobs, clock) == {}
        decreases limit - processed, !idle
      {
        var e := CleanupTurn(worker, turns(processed));
        match e
        case Nothing => idle := true;
        case Finished => processed, completed := processed + 1, completed + 1;
        case Requeued => processed, failed := processed + 1, failed + 1;
        case _ => processed, leaseLost := processed + 1, leaseLost + 1;
      }
      OpenStays(first, run);
      return Done(Summary(due, notDue, processed, completed, failed, leaseLost, |OpenJobs(jobs)|));
    }
  }
}
