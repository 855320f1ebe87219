/**
 Requests about time allocations that interleave.

 Nothing holds the checks, the write, the read after it and the log entry of a request
 together: each is an access of its own, and other requests run in between. The theorems say
 exactly when the log still tells the table, and when a change is undone twice.
 */
module TimeAllocationRuns {
  import opened Wrappers
  import opened TimeAllocations

  /** The next access of a request. */
  datatype Phase = Locating | Counting | Resolving | Reading | Writing | Rereading | Appending | Finished(result: Result)

  /** A request under way. The last five fields are history: the step numbers of its accesses, and the entry it wrote. */
  datatype Job = Job(
    request: Request,
    phase: Phase,
    target: Id,
    before: Option<Fields>,
    after: Option<Fields>,
    checkedAt: nat,
    wroteAt: nat,
    readAt: nat,
    appendedAt: nat,
    entry: nat)

  /** `authors` tells for every entry of the log which request wrote it. */
  datatype System = System(store: Store, jobs: map<Id, Job>, authors: seq<Id>, clock: nat)

  const START := System(EMPTY, map[], [], 0)

  datatype Move = Begin(job: Id, request: Request) | Advance(job: Id, world: World)

  // What a request is after.

  predicate Names(log: seq<Entry>, q: Request) {
    q.DoRestore? ==> q.entry < |log|
  }

  function ProjectOf(log: seq<Entry>, q: Request): Id
    requires Names(log, q)
  {
    if q.DoRestore? then log[q.entry].project else q.project
  }

  predicate Inserts(log: seq<Entry>, q: Request)
    requires Names(log, q)
  {
    q.DoCreate? || (q.DoRestore? && log[q.entry].action == Deleted)
  }

  predicate Removes(log: seq<Entry>, q: Request)
    requires Names(log, q)
  {
    q.DoDelete? || (q.DoRestore? && log[q.entry].action == Created)
  }

  /** The fields a request wants to see stored, if they pass validation. */
  function Wanted(log: seq<Entry>, q: Request): Option<Fields>
    requires Names(log, q)
  {
    match q
    case DoCreate(_, input, _) => Validate(input)
    case DoUpdate(_, _, input, _) => Validate(input)
    case DoDelete(_, _) => None
    case DoRestore(k) => if log[k].before.Some? then Validate(log[k].before.value) else None
  }

  function EntryOf(log: seq<Entry>, j: Job): Entry
    requires Names(log, j.request)
  {
    var action := match j.request
      case DoCreate(_, _, _) => Created
      case DoUpdate(_, _, _, _) => Updated
      case DoDelete(_, _) => Deleted
      case DoRestore(_) => Restored;
    Entry(ProjectOf(log, j.request), action, j.target, j.before, j.after, Changes(j.before, j.after),
          if j.request.DoRestore? then Some(j.request.entry) else None)
  }

  // The accesses.

  function Fail(j: Job, e: Error): Job {
    j.(phase := Finished(Err(e)))
  }

  /** What is decided before the first access. */
  function Begun(q: Request): Job {
    var j := Job(q, Locating, if q.DoUpdate? || q.DoDelete? then q.id else 0, None, None, 0, 0, 0, 0, 0);
    if (q.DoUpdate? || q.DoDelete?) && q.id == 0 then Fail(j, BadId)
    else if (q.DoCreate? || q.DoUpdate?) && Validate(q.input).None? then Fail(j, BadInput)
    else j
  }

  function Locate(s: Store, j: Job, w: World): Job {
    match j.request
    case DoCreate(project, _, _) =>
      if project !in w.projects then Fail(j, NotFound)
      else if project !in w.writable then Fail(j, NotWritable)
      else j.(phase := Resolving)
    case DoRestore(k) =>
      if k >= |s.log| then Fail(j, NotFound)
      else if s.log[k].project !in w.writable then Fail(j, NotWritable)
      else j.(phase := Counting, target := s.log[k].target)
    case _ =>
      if j.target !in s.rows || s.rows[j.target].project != j.request.project then Fail(j, NotFound)
      else if j.request.project !in w.writable then Fail(j, NotWritable)
      else j.(phase := if j.request.DoUpdate? then Resolving else Reading)
  }

  /** An undo of an update or a deletion needs the fields from before it. */
  function WithSnapshot(log: seq<Entry>, j: Job): Job
    requires Names(log, j.request) && j.request.DoRestore?
  {
    if log[j.request.entry].before.None? then Fail(j, NoSnapshot)
    else if Wanted(log, j.request).None? then Fail(j, BadInput)
    else j.(phase := Resolving)
  }

  function Count(s: Store, j: Job, clock: nat): Job
    requires Names(s.log, j.request) && j.request.DoRestore?
  {
    if Undone(s.log, j.request.entry) then Fail(j, AlreadyRestored)
    else
      var checked := j.(checkedAt := clock);
      match s.log[j.request.entry].action
      case Created => checked.(phase := Reading)
      case Updated => checked.(phase := Reading)
      case Deleted => WithSnapshot(s.log, checked)
      case Restored => Fail(checked, NotRestorable)
  }

  function Resolve(s: Store, j: Job, w: World): Job
    requires Names(s.log, j.request)
  {
    var f := Wanted(s.log, j.request);
    if f.None? then Fail(j, BadInput)
    else if !(if j.request.DoCreate? || j.request.DoUpdate? then MayHold(w, j.request.project, f.value.user, j.request.anyUser) else f.value.user in w.schedulable)
    then Fail(j, NoSuchUser)
    else j.(phase := if j.request.DoUpdate? then Reading else Writing)
  }

  function Read(s: Store, j: Job): Job
    requires Names(s.log, j.request)
  {
    if j.target !in s.rows then Fail(j, NotFound)
    else
      var read := j.(before := Some(s.rows[j.target].fields));
      if j.request.DoRestore? && !Removes(s.log, j.request) then WithSnapshot(s.log, read) else read.(phase := Writing)
  }

  /** What a write does to which allocation: an update of a row that is gone does nothing. */
  function Effect(s: Store, j: Job): Option<(Id, Option<Fields>)>
    requires Names(s.log, j.request)
  {
    if Removes(s.log, j.request) then Some((j.target, None))
    else if Wanted(s.log, j.request).None? then None
    else if Inserts(s.log, j.request) then Some((s.nextId, Wanted(s.log, j.request)))
    else if j.target in s.rows then Some((j.target, Wanted(s.log, j.request)))
    else None
  }

  function Write(s: Store, j: Job, clock: nat): (Store, Job)
    requires Names(s.log, j.request)
  {
    var f := Wanted(s.log, j.request);
    if Removes(s.log, j.request) then
      (s.(rows := s.rows - {j.target}), j.(phase := Appending, after := None, wroteAt := clock + 1, readAt := clock + 1))
    else if f.None? then (s, Fail(j, BadInput))
    else if Inserts(s.log, j.request) then
      (s.(rows := s.rows[s.nextId := Row(ProjectOf(s.log, j.request), f.value)], nextId := s.nextId + 1),
       j.(phase := Rereading, target := s.nextId, wroteAt := clock + 1))
    else
      (if j.target in s.rows then s.(rows := s.rows[j.target := s.rows[j.target].(fields := f.value)]) else s,
       j.(phase := Rereading, wroteAt := clock + 1))
  }

  function Reread(s: Store, j: Job, clock: nat): Job {
    if j.target !in s.rows then Fail(j, NotFound)
    else j.(phase := Appending, after := Some(s.rows[j.target].fields), readAt := clock)
  }

  function Append(s: Store, j: Job, clock: nat): (Store, Job)
    requires Names(s.log, j.request)
  {
    (s.(log := s.log + [EntryOf(s.log, j)]), j.(phase := Finished(Ok(j.after)), appendedAt := clock, entry := |s.log|))
  }

  /** One access of a request. */
  function Take(s: Store, j: Job, w: World, clock: nat): (Store, Job) {
    if j.phase == Locating then (s, Locate(s, j, w))
    else if j.phase.Finished? || !Names(s.log, j.request) then (s, j)
    else
      match j.phase
      case Counting => (s, if j.request.DoRestore? then Count(s, j, clock) else j)
      case Resolving => (s, Resolve(s, j, w))
      case Reading => (s, Read(s, j))
      case Writing => Write(s, j, clock)
      case Rereading => (s, Reread(s, j, clock))
      case Appending => Append(s, j, clock)
  }

  function Access(s: System, c: Id, w: World): System
    requires c in s.jobs
  {
    var (t, k) := Take(s.store, s.jobs[c], w, s.clock);
    s.(store := t, jobs := s.jobs[c := k], authors := if t.log == s.store.log then s.authors else s.authors + [c])
  }

  function Step(s: System, m: Move): System {
    var t := match m
      case Begin(c, q) => if c in s.jobs then s else s.(jobs := s.jobs[c := Begun(q)])
      case Advance(c, w) => if c in s.jobs then Access(s, c, w) else s;
    t.(clock := s.clock + 1)
  }

  function At(run: seq<Move>, i: nat): System
    requires i <= |run|
  {
    if i == 0 then START else Step(At(run, i - 1), run[i - 1])
  }

  // Left alone, a request is served as the serial functions say.

  /** The next `n` accesses of a request with nothing in between. */
  function Alone(s: Store, j: Job, w: World, clock: nat, n: nat): (Store, Job)
    decreases n
  {
    if n == 0 then (s, j)
    else
      var (t, k) := Take(s, j, w, clock);
      Alone(t, k, w, clock + 1, n - 1)
  }

  /** The request is over, with this store and this answer. */
  predicate EndsIn(a: (Store, Job), b: (Store, Result)) {
    a.0 == b.0 && a.1.phase == Finished(b.1)
  }

  lemma {:induction false} FinishedStays(s: Store, j: Job, w: World, clock: nat, n: nat)
    requires j.phase.Finished?
    ensures Alone(s, j, w, clock, n) == (s, j)
    decreases n
  {
    if n > 0 { FinishedStays(s, j, w, clock + 1, n - 1); }
  }

  lemma FromAppending(s: Store, j: Job, w: World, clock: nat, n: nat)
    requires j.phase == Appending && n >= 1 && Names(s.log, j.request)
    ensures EndsIn(Alone(s, j, w, clock, n), (s.(log := s.log + [EntryOf(s.log, j)]), Ok(j.after)))
  {
    hide EntryOf;
    var (t, k) := Append(s, j, clock);
    FinishedStays(t, k, w, clock + 1, n - 1);
  }

  /** What a request writes and logs when it gets to writing and nobody interferes. */
  function Finishing(s: Store, j: Job): (Store, Result)
    requires Names(s.log, j.request)
  {
    var log, f := s.log, Wanted(s.log, j.request);
    if Removes(log, j.request) then
      (s.(rows := s.rows - {j.target}, log := log + [EntryOf(log, j.(after := None))]), Ok(None))
    else if Inserts(log, j.request) && f.Some? then
      (s.(rows := s.rows[s.nextId := Row(ProjectOf(log, j.request), f.value)], nextId := s.nextId + 1,
          log := log + [EntryOf(log, j.(target := s.nextId, after := f))]), Ok(f))
    else if f.Some? && j.target in s.rows then
      (s.(rows := s.rows[j.target := s.rows[j.target].(fields := f.value)], log := log + [EntryOf(log, j.(after := f))]), Ok(f))
    else (s, Err(BadInput))
  }

  lemma FromWriting(s: Store, j: Job, w: World, clock: nat, n: nat)
    requires j.phase == Writing && n >= 3 && Names(s.log, j.request)
    requires Removes(s.log, j.request) || Wanted(s.log, j.request).Some?
    requires Removes(s.log, j.request) || Inserts(s.log, j.request) || j.target in s.rows
    ensures EndsIn(Alone(s, j, w, clock, n), Finishing(s, j))
  {
    hide Wanted, Changes;
    var (t, k) := Write(s, j, clock);
    if Removes(s.log, j.request) {
      FromAppending(t, k, w, clock + 1, n - 1);
    } else {
      var m := Reread(t, k, clock + 1);
      FromAppending(t, m, w, clock + 2, n - 2);
    }
  }

  lemma CreateAlone(s: Store, w: World, q: Request, clock: nat)
    requires q.DoCreate?
    ensures EndsIn(Alone(s, Begun(q), w, clock, 7), Serve(s, w, q))
  {
    hide Validate, Changes, Undone;
    var j := Begun(q);
    if j.phase.Finished? {
      FinishedStays(s, j, w, clock, 7);
    } else {
      var k := Locate(s, j, w);
      if k.phase.Finished? {
        FinishedStays(s, k, w, clock + 1, 6);
      } else {
        var m := Resolve(s, k, w);
        if m.phase.Finished? { FinishedStays(s, m, w, clock + 2, 5); } else { FromWriting(s, m, w, clock + 2, 5); }
      }
    }
  }

  lemma UpdateAlone(s: Store, w: World, q: Request, clock: nat)
    requires q.DoUpdate?
    ensures EndsIn(Alone(s, Begun(q), w, clock, 7), Serve(s, w, q))
  {
    hide Validate, Changes, Undone;
    var j := Begun(q);
    if j.phase.Finished? {
      FinishedStays(s, j, w, clock, 7);
    } else {
      var k := Locate(s, j, w);
      if k.phase.Finished? {
        FinishedStays(s, k, w, clock + 1, 6);
      } else {
        var m := Resolve(s, k, w);
        if m.phase.Finished? { FinishedStays(s, m, w, clock + 2, 5); } else { FromWriting(s, Read(s, m), w, clock + 3, 4); }
      }
    }
  }

  lemma DeleteAlone(s: Store, w: World, q: Request, clock: nat)
    requires q.DoDelete?
    ensures EndsIn(Alone(s, Begun(q), w, clock, 7), Serve(s, w, q))
  {
    hide Validate, Changes, Undone;
    var j := Begun(q);
    if j.phase.Finished? {
      FinishedStays(s, j, w, clock, 7);
    } else {
      var k := Locate(s, j, w);
      if k.phase.Finished? { FinishedStays(s, k, w, clock + 1, 6); } else { FromWriting(s, Read(s, k), w, clock + 2, 5); }
    }
  }

  lemma RestoreAlone(s: Store, w: World, q: Request, clock: nat)
    requires q.DoRestore?
    ensures EndsIn(Alone(s, Begun(q), w, clock, 7), Serve(s, w, q))
  {
    hide Validate, Changes, Undone;
    var k := Locate(s, Begun(q), w);
    if k.phase.Finished? {
      FinishedStays(s, k, w, clock + 1, 6);
    } else {
      var m := Count(s, k, clock + 1);
      if m.phase.Finished? {
        FinishedStays(s, m, w, clock + 2, 5);
      } else if s.log[q.entry].action == Deleted {
        ResolvedAlone(s, m, w, clock + 2, 5);
      } else {
        var n := Read(s, m);
        if n.phase.Finished? {
          FinishedStays(s, n, w, clock + 3, 4);
        } else if s.log[q.entry].action == Created {
          FromWriting(s, n, w, clock + 3, 4);
        } else {
          ResolvedAlone(s, n, w, clock + 3, 4);
        }
      }
    }
  }

  lemma ResolvedAlone(s: Store, j: Job, w: World, clock: nat, n: nat)
    requires j.phase == Resolving && j.request.DoRestore? && Names(s.log, j.request) && n >= 4
    requires Wanted(s.log, j.request).Some? && !Removes(s.log, j.request) && (Inserts(s.log, j.request) || j.target in s.rows)
    ensures EndsIn(Alone(s, j, w, clock, n), if Wanted(s.log, j.request).value.user in w.schedulable then Finishing(s, j) else (s, Err(NoSuchUser)))
  {
    hide Wanted, Changes;
    var m := Resolve(s, j, w);
    if m.phase.Finished? { FinishedStays(s, m, w, clock + 1, n - 1); } else { FromWriting(s, m, w, clock + 1, n - 1); }
  }

  /** The accesses of a request, made one after the other, are the request served alone. */
  lemma AloneIsServe(s: Store, w: World, q: Request, clock: nat)
    ensures EndsIn(Alone(s, Begun(q), w, clock, 7), Serve(s, w, q))
  {
    hide Alone, Serve, Begun;
    match q
    case DoCreate(_, _, _) => CreateAlone(s, w, q, clock);
    case DoUpdate(_, _, _, _) => UpdateAlone(s, w, q, clock);
    case DoDelete(_, _) => DeleteAlone(s, w, q, clock);
    case DoRestore(_) => RestoreAlone(s, w, q, clock);
  }

  // Writes.

  /** The effect of a step on the table: which allocation it sets to what. */
  function EffectOf(s: System, m: Move): Option<(Id, Option<Fields>)> {
    if m.Advance? && m.job in s.jobs && s.jobs[m.job].phase == Writing && Names(s.store.log, s.jobs[m.job].request)
    then Effect(s.store, s.jobs[m.job]) else None
  }

  /** The last of the first `n` steps that set allocation `id`, counted from 1; 0 if none did. */
  function LastWrite(run: seq<Move>, n: nat, id: Id): (r: nat)
    requires n <= |run|
    ensures r <= n
  {
    if n == 0 then 0
    else if EffectOf(At(run, n - 1), run[n - 1]).Some? && EffectOf(At(run, n - 1), run[n - 1]).value.0 == id then n
    else LastWrite(run, n - 1, id)
  }

  /** What write number `x` set an allocation to. */
  function Wrote(run: seq<Move>, x: nat): Option<Fields>
    requires x <= |run|
  {
    if x == 0 || EffectOf(At(run, x - 1), run[x - 1]).None? then None else EffectOf(At(run, x - 1), run[x - 1]).value.1
  }

  lemma TakeSetsRows(s: Store, j: Job, w: World, clock: nat, id: Id)
    ensures var t := Take(s, j, w, clock).0;
      FieldsOf(t.rows, id) == if j.phase == Writing && Names(s.log, j.request) && Effect(s, j).Some? && Effect(s, j).value.0 == id
                              then Effect(s, j).value.1 else FieldsOf(s.rows, id)
  {
    hide Validate, Changes;
  }

  lemma StepSetsRows(s: System, m: Move, id: Id)
    ensures FieldsOf(Step(s, m).store.rows, id)
      == if EffectOf(s, m).Some? && EffectOf(s, m).value.0 == id then EffectOf(s, m).value.1 else FieldsOf(s.store.rows, id)
  {
    hide Take, Effect, FieldsOf;
    if m.Advance? && m.job in s.jobs { TakeSetsRows(s.store, s.jobs[m.job], m.world, s.clock, id); }
  }

  /** An allocation holds what the last write of it put there. */
  lemma {:induction false} RowIsLastWrite(run: seq<Move>, n: nat, id: Id)
    requires n <= |run|
    ensures FieldsOf(At(run, n).store.rows, id) == Wrote(run, LastWrite(run, n, id))
  {
    hide EffectOf, Step;
    if n > 0 {
      RowIsLastWrite(run, n - 1, id);
      StepSetsRows(At(run, n - 1), run[n - 1], id);
    }
  }

  lemma {:induction false} LastWriteStays(run: seq<Move>, m: nat, n: nat, id: Id)
    requires m <= n <= |run| && LastWrite(run, n, id) <= m
    ensures LastWrite(run, m, id) == LastWrite(run, n, id)
    decreases n
  {
    hide EffectOf, At;
    if m < n { LastWriteStays(run, m, n - 1, id); }
  }

  // The log.

  lemma TakeAppends(s: Store, j: Job, w: World, clock: nat)
    ensures var (t, k) := Take(s, j, w, clock);
      if j.phase == Appending && Names(s.log, j.request) then (t, k) == Append(s, j, clock) else t.log == s.log
  {
    hide Validate, Changes;
  }

  lemma StepGrows(s: System, m: Move)
    ensures s.store.log <= Step(s, m).store.log
  {
    hide Take, EntryOf;
    if m.Advance? && m.job in s.jobs { TakeAppends(s.store, s.jobs[m.job], m.world, s.clock); }
  }

  lemma {:induction false} LogGrows(run: seq<Move>, i: nat, j: nat)
    requires i <= j <= |run|
    ensures At(run, i).store.log <= At(run, j).store.log
    decreases j
  {
    hide Step;
    if i < j {
      LogGrows(run, i, j - 1);
      StepGrows(At(run, j - 1), run[j - 1]);
    }
  }

  // What is known of a request on its way.

  predicate HasChecked(p: Phase) {
    p == Resolving || p == Reading || p == Writing || p == Rereading || p == Appending || (p.Finished? && p.result.Ok?)
  }

  /** An undo that got past its check named an entry that could be undone, and saw no undo of it. */
  ghost predicate CheckedWell(run: seq<Move>, i: nat, j: Job)
    requires i <= |run|
  {
    j.request.DoRestore? && HasChecked(j.phase) ==>
      && j.checkedAt <= i && Names(At(run, j.checkedAt).store.log, j.request)
      && !Undone(At(run, j.checkedAt).store.log, j.request.entry)
      && At(run, j.checkedAt).store.log[j.request.entry].action != Restored
  }

  predicate HasRead(p: Phase) {
    p == Appending || (p.Finished? && p.result.Ok?)
  }

  /** What a request is about to log is what the row held when it was last read, and that was after the request's own write. */
  ghost predicate ReadWell(run: seq<Move>, i: nat, j: Job)
    requires i <= |run|
  {
    && (j.phase == Rereading ==> j.wroteAt <= i)
    && (HasRead(j.phase) ==> j.wroteAt <= j.readAt <= i && j.after == FieldsOf(At(run, j.readAt).store.rows, j.target))
  }

  /** A request that succeeded has one entry in the log, written at its last step, after its check. */
  ghost predicate LoggedWell(run: seq<Move>, i: nat, s: System, c: Id)
    requires i <= |run| && c in s.jobs
  {
    var j := s.jobs[c];
    j.phase.Finished? && j.phase.result.Ok? ==>
      && j.entry < |s.store.log| && j.entry < |s.authors| && s.authors[j.entry] == c
      && j.appendedAt < i && |At(run, j.appendedAt).store.log| == j.entry && |At(run, j.appendedAt + 1).store.log| > j.entry
      && (j.request.DoRestore? ==> j.checkedAt <= j.appendedAt)
      && s.store.log[j.entry].target == j.target && s.store.log[j.entry].after == j.after
      && s.store.log[j.entry].source == (if j.request.DoRestore? then Some(j.request.entry) else None)
      && (s.store.log[j.entry].action == Restored <==> j.request.DoRestore?)
  }

  /** Every entry was written by a request that succeeded. */
  ghost predicate AuthorInv(s: System) {
    && |s.authors| == |s.store.log|
    && forall k :: 0 <= k < |s.authors| ==>
         && s.authors[k] in s.jobs && s.jobs[s.authors[k]].phase.Finished? && s.jobs[s.authors[k]].phase.result.Ok?
         && s.jobs[s.authors[k]].entry == k
  }

  lemma ClockCounts(run: seq<Move>, i: nat)
    requires i <= |run|
    ensures At(run, i).clock == i
  {
    if i > 0 { ClockCounts(run, i - 1); }
  }

  lemma BegunIsNew(q: Request)
    ensures var j := Begun(q); !HasChecked(j.phase) && !HasRead(j.phase) && j.phase != Rereading && (j.phase.Finished? ==> j.phase.result.Err?)
  {
    hide Validate;
  }

  lemma TakeChecks(s: Store, j: Job, w: World, clock: nat)
    ensures var k := Take(s, j, w, clock).1;
      && k.request == j.request
      && (j.request.DoRestore? && HasChecked(k.phase) ==>
            || (HasChecked(j.phase) && k.checkedAt == j.checkedAt)
            || (k.checkedAt == clock && Names(s.log, j.request) && !Undone(s.log, j.request.entry) && s.log[j.request.entry].action != Restored))
  {
    hide Validate, Changes, Undone, Wanted, MayHold;
  }

  /** How a request comes to know what it will log. */
  predicate Learns(s: Store, t: Store, j: Job, k: Job, clock: nat) {
    && (k.phase == Rereading ==> k.wroteAt == clock + 1)
    && (HasRead(k.phase) ==>
          || (HasRead(j.phase) && k.readAt == j.readAt && k.wroteAt == j.wroteAt && k.after == j.after && k.target == j.target)
          || (j.phase == Rereading && k.wroteAt == j.wroteAt && k.readAt == clock && k.after == FieldsOf(s.rows, k.target))
          || (k.wroteAt == k.readAt == clock + 1 && k.after == FieldsOf(t.rows, k.target)))
  }

  lemma TakeLearns(s: Store, j: Job, w: World, clock: nat)
    requires j.phase == Rereading ==> Names(s.log, j.request)
    ensures var (t, k) := Take(s, j, w, clock); Learns(s, t, j, k, clock)
  {
    hide Validate, Changes, Undone, Wanted, MayHold, EntryOf;
  }

  lemma TakeFinishes(s: Store, j: Job, w: World, clock: nat)
    requires j.phase == Appending ==> Names(s.log, j.request)
    ensures var (t, k) := Take(s, j, w, clock);
      (k.phase.Finished? && k.phase.result.Ok? ==> j.phase == Appending || (t, k) == (s, j)) && (j.phase.Finished? ==> (t, k) == (s, j))
  {
    hide Validate, Changes, Undone, Wanted, MayHold, EntryOf;
  }

  // The invariant of all interleavings.

  ghost predicate NamesWell(s: System, c: Id) {
    c in s.jobs && s.jobs[c].phase != Locating && !(s.jobs[c].phase.Finished? && s.jobs[c].phase.result.Err?) ==> Names(s.store.log, s.jobs[c].request)
  }

  lemma TakeNames(s: Store, j: Job, w: World, clock: nat)
    requires j.phase != Locating && !(j.phase.Finished? && j.phase.result.Err?) ==> Names(s.log, j.request)
    ensures var (t, k) := Take(s, j, w, clock);
      k.phase != Locating && !(k.phase.Finished? && k.phase.result.Err?) ==> Names(t.log, k.request)
  {
    hide Validate, Changes, Undone, Wanted, MayHold, EntryOf;
  }

  lemma {:induction false} NamesHold(run: seq<Move>, i: nat, c: Id)
    requires i <= |run|
    ensures NamesWell(At(run, i), c)
  {
    hide Take, Begun;
    if i > 0 {
      NamesHold(run, i - 1, c);
      LogGrows(run, i - 1, i);
      var s, m := At(run, i - 1), run[i - 1];
      if m.Begin? && m.job == c {
        BegunNames(s.store.log, m.request);
      } else if m.Advance? && m.job == c && c in s.jobs {
        TakeNames(s.store, s.jobs[c], m.world, s.clock);
      }
    }
  }

  lemma BegunNames(log: seq<Entry>, q: Request)
    ensures Begun(q).request == q && (Begun(q).phase == Locating || (Begun(q).phase.Finished? && Begun(q).phase.result.Err?))
  {
    hide Validate;
  }

  lemma {:induction false} CheckedWellHolds(run: seq<Move>, i: nat, c: Id)
    requires i <= |run|
    ensures c in At(run, i).jobs ==> CheckedWell(run, i, At(run, i).jobs[c])
  {
    hide Take, Begun, HasChecked, Undone;
    if i > 0 {
      CheckedWellHolds(run, i - 1, c);
      ClockCounts(run, i - 1);
      var s, m := At(run, i - 1), run[i - 1];
      if m.Begin? && m.job == c {
        BegunIsNew(m.request);
      } else if m.Advance? && m.job == c && c in s.jobs {
        TakeChecks(s.store, s.jobs[c], m.world, s.clock);
      }
    }
  }

  lemma {:induction false} ReadWellHolds(run: seq<Move>, i: nat, c: Id)
    requires i <= |run|
    ensures c in At(run, i).jobs ==> ReadWell(run, i, At(run, i).jobs[c])
  {
    hide Take, Begun, HasRead, FieldsOf;
    if i > 0 {
      ReadWellHolds(run, i - 1, c);
      NamesHold(run, i - 1, c);
      ClockCounts(run, i - 1);
      var s, m := At(run, i - 1), run[i - 1];
      if m.Begin? && m.job == c {
        BegunIsNew(m.request);
      } else if m.Advance? && m.job == c && c in s.jobs {
        TakeLearns(s.store, s.jobs[c], m.world, s.clock);
      }
    }
  }

  lemma AppendedWell(run: seq<Move>, i: nat, c: Id)
    requires 0 < i <= |run| && run[i - 1].Advance? && run[i - 1].job == c && c in At(run, i - 1).jobs
    requires At(run, i - 1).jobs[c].phase == Appending && Names(At(run, i - 1).store.log, At(run, i - 1).jobs[c].request)
    requires CheckedWell(run, i - 1, At(run, i - 1).jobs[c]) && |At(run, i - 1).authors| == |At(run, i - 1).store.log|
    ensures LoggedWell(run, i, At(run, i), c)
    ensures At(run, i).authors == At(run, i - 1).authors + [c] && |At(run, i).store.log| == |At(run, i - 1).store.log| + 1
    ensures var k := At(run, i).jobs[c]; k.phase.Finished? && k.phase.result.Ok? && k.entry == |At(run, i - 1).store.log|
  {
    hide Changes, Undone;
    ClockCounts(run, i - 1);
    var s := At(run, i - 1);
    var j := s.jobs[c];
    assert Take(s.store, j, run[i - 1].world, s.clock) == Append(s.store, j, s.clock);
    hide Take, At;
  }

  /** The log and the authors of a step in which nobody appends. */
  lemma QuietStep(s: System, m: Move)
    requires m.Advance? && m.job in s.jobs ==> s.jobs[m.job].phase != Appending
    ensures Step(s, m).store.log == s.store.log && Step(s, m).authors == s.authors
  {
    hide Take;
    if m.Advance? && m.job in s.jobs { TakeAppends(s.store, s.jobs[m.job], m.world, s.clock); }
  }

  predicate Succeeded(j: Job) {
    j.phase.Finished? && j.phase.result.Ok?
  }

  /** What a success has left in the log stays there. */
  lemma LoggedWellStays(run: seq<Move>, i: nat, c: Id)
    requires 0 < i <= |run| && c in At(run, i - 1).jobs && c in At(run, i).jobs && At(run, i).jobs[c] == At(run, i - 1).jobs[c]
    requires LoggedWell(run, i - 1, At(run, i - 1), c)
    requires At(run, i - 1).store.log <= At(run, i).store.log && At(run, i - 1).authors <= At(run, i).authors
    ensures LoggedWell(run, i, At(run, i), c)
  {
    hide At;
  }

  lemma AuthorsStay(s: System, t: System)
    requires AuthorInv(s) && t.authors == s.authors && t.store.log == s.store.log
    requires forall c :: c in s.jobs && Succeeded(s.jobs[c]) ==> c in t.jobs && t.jobs[c] == s.jobs[c]
    ensures AuthorInv(t)
  {
  }

  lemma AuthorJoins(s: System, t: System, c: Id)
    requires AuthorInv(s) && t.authors == s.authors + [c] && |t.store.log| == |s.store.log| + 1
    requires c in t.jobs && Succeeded(t.jobs[c]) && t.jobs[c].entry == |s.store.log|
    requires forall d :: d in s.jobs && Succeeded(s.jobs[d]) ==> d in t.jobs && t.jobs[d] == s.jobs[d]
    ensures AuthorInv(t)
  {
  }

  ghost predicate StaysAs(run: seq<Move>, i: nat, c: Id)
    requires 0 < i <= |run| && c in At(run, i - 1).jobs && c in At(run, i).jobs
  {
    At(run, i).jobs[c] == At(run, i - 1).jobs[c]
  }

  ghost predicate JustAppended(run: seq<Move>, i: nat, c: Id)
    requires 0 < i <= |run| && c in At(run, i - 1).jobs
  {
    run[i - 1].Advance? && run[i - 1].job == c && At(run, i - 1).jobs[c].phase == Appending
  }

  /** Successes are final, and a success that is new has just been appended. */
  lemma SuccessesStay(run: seq<Move>, i: nat, c: Id)
    requires 0 < i <= |run|
    ensures c in At(run, i - 1).jobs && Succeeded(At(run, i - 1).jobs[c]) ==> c in At(run, i).jobs && At(run, i).jobs[c] == At(run, i - 1).jobs[c]
    ensures c in At(run, i).jobs && Succeeded(At(run, i).jobs[c]) ==> c in At(run, i - 1).jobs && (StaysAs(run, i, c) || JustAppended(run, i, c))
  {
    hide Take, Begun;
    NamesHold(run, i - 1, c);
    var s, m := At(run, i - 1), run[i - 1];
    if m.Begin? && m.job == c {
      BegunIsNew(m.request);
    } else if m.Advance? && m.job == c && c in s.jobs {
      TakeFinishes(s.store, s.jobs[c], m.world, s.clock);
    }
  }

  lemma {:induction false} AuthorsHold(run: seq<Move>, i: nat)
    requires i <= |run|
    ensures AuthorInv(At(run, i))
  {
    hide Step, Succeeded, CheckedWell, LoggedWell;
    if i > 0 {
      AuthorsHold(run, i - 1);
      var s, m := At(run, i - 1), run[i - 1];
      forall c | c in s.jobs && Succeeded(s.jobs[c])
        ensures c in At(run, i).jobs && At(run, i).jobs[c] == s.jobs[c]
      {
        SuccessesStay(run, i, c);
      }
      if m.Advance? && m.job in s.jobs && s.jobs[m.job].phase == Appending {
        NamesHold(run, i - 1, m.job);
        CheckedWellHolds(run, i - 1, m.job);
        AppendedWell(run, i, m.job);
        assert m.job in At(run, i).jobs by { JobsStay(run, i, m.job); }
        SuccessIs(At(run, i).jobs[m.job]);
        AuthorJoins(s, At(run, i), m.job);
      } else {
        QuietStep(s, m);
        AuthorsStay(s, At(run, i));
      }
    }
  }

  lemma JobsStay(run: seq<Move>, i: nat, c: Id)
    requires 0 < i <= |run| && c in At(run, i - 1).jobs
    ensures c in At(run, i).jobs
  {
    hide Take;
  }

  lemma SuccessIs(j: Job)
    ensures Succeeded(j) <==> j.phase.Finished? && j.phase.result.Ok?
  {
  }

  lemma {:induction false} LoggedWellHolds(run: seq<Move>, i: nat, c: Id)
    requires i <= |run|
    ensures c in At(run, i).jobs ==> LoggedWell(run, i, At(run, i), c)
  {
    hide Step, CheckedWell, AuthorInv, Succeeded;
    if i > 0 && c in At(run, i).jobs {
      var s, m := At(run, i - 1), run[i - 1];
      SuccessesStay(run, i, c);
      SuccessIs(At(run, i).jobs[c]);
      if Succeeded(At(run, i).jobs[c]) {
        AuthorLengths(run, i - 1);
        if At(run, i).jobs[c] == s.jobs[c] {
          LoggedWellHolds(run, i - 1, c);
          LogGrows(run, i - 1, i);
          AuthorsGrow(run, i);
          hide LoggedWell;
          LoggedWellStays(run, i, c);
        } else {
          NamesHold(run, i - 1, c);
          CheckedWellHolds(run, i - 1, c);
          hide LoggedWell;
          AppendedWell(run, i, c);
        }
      }
    }
  }

  lemma AuthorLengths(run: seq<Move>, i: nat)
    requires i <= |run|
    ensures |At(run, i).authors| == |At(run, i).store.log|
  {
    hide At;
    AuthorsHold(run, i);
  }

  lemma AuthorsGrow(run: seq<Move>, i: nat)
    requires 0 < i <= |run|
    ensures At(run, i - 1).authors <= At(run, i).authors
  {
    hide Take;
  }

  // When the log tells the table.

  /** The number of the last entry about an allocation, counted from 1; 0 if there is none. */
  function LastEntry(log: seq<Entry>, id: Id): (r: nat)
    ensures r <= |log| && (r > 0 ==> log[r - 1].target == id)
  {
    if log == [] then 0
    else if log[|log| - 1].target == id then |log|
    else LastEntry(log[..|log| - 1], id)
  }

  lemma {:induction false} FoldedIsLastEntry(log: seq<Entry>, id: Id)
    ensures Folded(log, id) == if LastEntry(log, id) == 0 then None else log[LastEntry(log, id) - 1].after
  {
    if log != [] && log[|log| - 1].target != id { FoldedIsLastEntry(log[..|log| - 1], id); }
  }

  /** The request that made the last entry about an allocation. */
  ghost function LastAuthor(s: System, id: Id): Job
    requires AuthorInv(s) && LastEntry(s.store.log, id) > 0
  {
    s.jobs[s.authors[LastEntry(s.store.log, id) - 1]]
  }

  /** When the state of the allocation that its last entry records was read. */
  ghost function RecordedAt(s: System, id: Id): nat
    requires AuthorInv(s)
  {
    if LastEntry(s.store.log, id) == 0 then 0 else LastAuthor(s, id).readAt
  }

  /** The last write that the last entry about an allocation has seen. */
  ghost function SeenWrite(run: seq<Move>, i: nat, id: Id): nat
    requires i <= |run| && AuthorInv(At(run, i)) && RecordedAt(At(run, i), id) <= |run|
  {
    LastWrite(run, RecordedAt(At(run, i), id), id)
  }

  lemma EntryTellsRow(run: seq<Move>, i: nat, id: Id)
    requires i <= |run|
    ensures AuthorInv(At(run, i)) && RecordedAt(At(run, i), id) <= i
    ensures Folded(At(run, i).store.log, id) == FieldsOf(At(run, RecordedAt(At(run, i), id)).store.rows, id)
    ensures LastEntry(At(run, i).store.log, id) > 0 ==> LastAuthor(At(run, i), id).wroteAt <= RecordedAt(At(run, i), id)
  {
    AuthorsHold(run, i);
    var s := At(run, i);
    FoldedIsLastEntry(s.store.log, id);
    var x := LastEntry(s.store.log, id);
    if x > 0 {
      var c := s.authors[x - 1];
      ReadWellHolds(run, i, c);
      LoggedWellHolds(run, i, c);
      hide Step;
    } else {
      assert At(run, 0) == START;
      hide Step;
    }
  }

  /**
   In every interleaving, at every moment: the log tells an allocation's fields, or that it is
   gone, exactly if the last write of the row put there what the last write seen by the last
   entry had put there.
   */
  lemma LogTellsRowIff(run: seq<Move>, i: nat, id: Id)
    requires i <= |run|
    ensures AuthorInv(At(run, i)) && RecordedAt(At(run, i), id) <= |run|
    ensures Folded(At(run, i).store.log, id) == FieldsOf(At(run, i).store.rows, id)
      <==> Wrote(run, LastWrite(run, i, id)) == Wrote(run, SeenWrite(run, i, id))
  {
    hide At, Wrote, LastWrite, Folded, FieldsOf, AuthorInv, RecordedAt;
    EntryTellsRow(run, i, id);
    RowIsLastWrite(run, i, id);
    RowIsLastWrite(run, RecordedAt(At(run, i), id), id);
  }

  /** So it does if nobody wrote the row since, above all if the request that wrote last also logged last. */
  lemma LastWriterLogsLast(run: seq<Move>, i: nat, id: Id)
    requires i <= |run|
    ensures AuthorInv(At(run, i)) && RecordedAt(At(run, i), id) <= |run|
    ensures LastWrite(run, i, id) <= RecordedAt(At(run, i), id) ==> Folded(At(run, i).store.log, id) == FieldsOf(At(run, i).store.rows, id)
    ensures LastEntry(At(run, i).store.log, id) > 0 && LastWrite(run, i, id) == LastAuthor(At(run, i), id).wroteAt
      ==> LastWrite(run, i, id) <= RecordedAt(At(run, i), id)
  {
    hide At, Folded, FieldsOf, AuthorInv, RecordedAt, LastAuthor, Wrote, LastWrite;
    LogTellsRowIff(run, i, id);
    EntryTellsRow(run, i, id);
    if LastWrite(run, i, id) <= RecordedAt(At(run, i), id) {
      LastWriteStays(run, RecordedAt(At(run, i), id), i, id);
    }
  }

  /** No two writes of an allocation put the same there. */
  ghost predicate WritesDiffer(run: seq<Move>, i: nat, id: Id)
    requires i <= |run|
  {
    forall m, n :: 0 <= m <= i && 0 <= n <= i && LastWrite(run, m, id) != LastWrite(run, n, id) ==>
      Wrote(run, LastWrite(run, m, id)) != Wrote(run, LastWrite(run, n, id))
  }

  /** Where no two writes put the same, the log tells the row exactly if the last entry was read after the last write. */
  lemma LogTellsRowIffCurrent(run: seq<Move>, i: nat, id: Id)
    requires i <= |run| && WritesDiffer(run, i, id)
    ensures AuthorInv(At(run, i)) && RecordedAt(At(run, i), id) <= |run|
    ensures Folded(At(run, i).store.log, id) == FieldsOf(At(run, i).store.rows, id)
      <==> LastWrite(run, i, id) <= RecordedAt(At(run, i), id)
  {
    hide At, Folded, FieldsOf, AuthorInv, RecordedAt, Wrote, LastWrite;
    LastWriterLogsLast(run, i, id);
    LogTellsRowIff(run, i, id);
    EntryTellsRow(run, i, id);
  }

  // When a change is undone twice.

  ghost predicate UndoneTwice(log: seq<Entry>, k: nat) {
    exists m, n :: 0 <= m < n < |log| && IsUndo(log[m], k) && IsUndo(log[n], k)
  }

  /** Request `c` undid entry `k`. */
  predicate Undid(s: System, c: Id, k: nat) {
    c in s.jobs && s.jobs[c].request == DoRestore(k) && Succeeded(s.jobs[c])
  }

  /** Two requests undid entry `k`, and the second checked for an undo before the first had logged its own. */
  ghost predicate UndosOverlap(s: System, k: nat) {
    exists c, d :: c != d && Undid(s, c, k) && Undid(s, d, k) && s.jobs[d].checkedAt <= s.jobs[c].appendedAt
  }

  lemma UndoByAuthor(run: seq<Move>, i: nat, n: nat, k: nat)
    requires i <= |run| && n < |At(run, i).store.log| && IsUndo(At(run, i).store.log[n], k)
    ensures AuthorInv(At(run, i)) && n < |At(run, i).authors| && Undid(At(run, i), At(run, i).authors[n], k)
    ensures At(run, i).jobs[At(run, i).authors[n]].entry == n
  {
    AuthorsHold(run, i);
    LoggedWellHolds(run, i, At(run, i).authors[n]);
    hide Step;
  }

  lemma UndoIsLogged(run: seq<Move>, i: nat, c: Id, k: nat)
    requires i <= |run| && Undid(At(run, i), c, k)
    ensures var n := At(run, i).jobs[c].entry;
      n < |At(run, i).store.log| && n < |At(run, i).authors| && At(run, i).authors[n] == c && IsUndo(At(run, i).store.log[n], k)
  {
    LoggedWellHolds(run, i, c);
    hide Step;
  }

  lemma LaterChecksSee(run: seq<Move>, i: nat, c: Id, y: nat, k: nat)
    requires i <= |run| && c in At(run, i).jobs && LoggedWell(run, i, At(run, i), c) && Undid(At(run, i), c, k)
    requires At(run, i).jobs[c].appendedAt < y <= i
    ensures Undone(At(run, y).store.log, k)
  {
    hide At;
    var j := At(run, i).jobs[c];
    LogGrows(run, j.appendedAt + 1, y);
    LogGrows(run, y, i);
    assert IsUndo(At(run, y).store.log[j.entry], k);
  }

  /** If an undo was logged before another of the same entry, the other had checked before it was logged. */
  lemma UndosOverlapped(run: seq<Move>, i: nat, m: nat, n: nat, k: nat)
    requires i <= |run| && m < n < |At(run, i).store.log| && IsUndo(At(run, i).store.log[m], k) && IsUndo(At(run, i).store.log[n], k)
    ensures UndosOverlap(At(run, i), k)
  {
    hide Step, Undone, LoggedWell, IsUndo;
    UndoByAuthor(run, i, m, k);
    UndoByAuthor(run, i, n, k);
    var s := At(run, i);
    var c, d := s.authors[m], s.authors[n];
    LoggedWellHolds(run, i, c);
    CheckedWellHolds(run, i, d);
    if s.jobs[d].checkedAt > s.jobs[c].appendedAt { LaterChecksSee(run, i, c, s.jobs[d].checkedAt, k); }
    assert s.jobs[d].checkedAt <= s.jobs[c].appendedAt;
  }

  /** In every interleaving: an entry is undone twice exactly if two undos of it overlap. */
  lemma UndoneTwiceIff(run: seq<Move>, i: nat, k: nat)
    requires i <= |run|
    ensures UndoneTwice(At(run, i).store.log, k) <==> UndosOverlap(At(run, i), k)
  {
    hide Step, At;
    var s := At(run, i);
    if UndoneTwice(s.store.log, k) {
      var m, n :| 0 <= m < n < |s.store.log| && IsUndo(s.store.log[m], k) && IsUndo(s.store.log[n], k);
      UndosOverlapped(run, i, m, n, k);
    }
    if UndosOverlap(s, k) {
      var c, d :| c != d && Undid(s, c, k) && Undid(s, d, k) && s.jobs[d].checkedAt <= s.jobs[c].appendedAt;
      UndoIsLogged(run, i, c, k);
      UndoIsLogged(run, i, d, k);
    }
  }

  /** In every interleaving, what is undone is an earlier entry, and never an undo. */
  lemma UndosAreNotUndone(run: seq<Move>, i: nat, n: nat, k: nat)
    requires i <= |run| && n < |At(run, i).store.log| && IsUndo(At(run, i).store.log[n], k)
    ensures k < n && At(run, i).store.log[k].action != Restored
  {
    UndoByAuthor(run, i, n, k);
    var c := At(run, i).authors[n];
    LoggedWellHolds(run, i, c);
    CheckedWellHolds(run, i, c);
    var j := At(run, i).jobs[c];
    LogGrows(run, j.checkedAt, j.appendedAt);
    LogGrows(run, j.checkedAt, i);
    hide Step;
  }

  // Schedules in which it goes wrong, after any run.

  /** The run goes on with the next `n` accesses of request `c`. */
  function Turns(c: Id, w: World, n: nat): seq<Move> {
    if n == 0 then [] else [Advance(c, w)] + Turns(c, w, n - 1)
  }

  function Play(s: System, moves: seq<Move>): System
    decreases |moves|
  {
    if moves == [] then s else Play(Step(s, moves[0]), moves[1..])
  }

  lemma {:induction false} PlayAppend(s: System, a: seq<Move>, b: seq<Move>)
    ensures Play(s, a + b) == Play(Play(s, a), b)
    decreases |a|
  {
    hide Step;
    if a == [] {
      assert a + b == b;
    } else {
      assert (a + b)[1..] == a[1..] + b;
      PlayAppend(Step(s, a[0]), a[1..], b);
    }
  }

  lemma {:induction false} SameStart(run: seq<Move>, moves: seq<Move>, i: nat)
    requires i <= |run|
    ensures At(run + moves, i) == At(run, i)
  {
    hide Step;
    if i > 0 { SameStart(run, moves, i - 1); }
  }

  lemma {:induction false} PlayedOn(run: seq<Move>, moves: seq<Move>)
    ensures At(run + moves, |run + moves|) == Play(At(run, |run|), moves)
    decreases |moves|
  {
    hide Step;
    if moves == [] {
      assert run + moves == run;
    } else {
      var n := |moves| - 1;
      assert moves == moves[..n] + [moves[n]] && run + moves == run + moves[..n] + [moves[n]];
      SameStart(run + moves[..n], [moves[n]], |run| + n);
      PlayedOn(run, moves[..n]);
      PlayAppend(At(run, |run|), moves[..n], [moves[n]]);
    }
  }

  lemma {:induction false} TurnsAlone(s: System, c: Id, w: World, n: nat)
    requires c in s.jobs
    ensures var t, a := Play(s, Turns(c, w, n)), Alone(s.store, s.jobs[c], w, s.clock, n);
      t.store == a.0 && t.jobs == s.jobs[c := a.1] && t.clock == s.clock + n
    decreases n
  {
    hide Take;
    if n > 0 {
      assert Turns(c, w, n)[1..] == Turns(c, w, n - 1);
      TurnsAlone(Step(s, Advance(c, w)), c, w, n - 1);
    }
  }

  /** Plays the next accesses of `c`, and then the rest. */
  lemma TurnsThen(s: System, c: Id, w: World, n: nat, rest: seq<Move>) returns (t: System)
    requires c in s.jobs
    ensures Play(s, Turns(c, w, n) + rest) == Play(t, rest)
    ensures var a := Alone(s.store, s.jobs[c], w, s.clock, n);
      t.store == a.0 && t.jobs == s.jobs[c := a.1] && t.clock == s.clock + n
  {
    hide Play, Turns, Alone;
    t := Play(s, Turns(c, w, n));
    TurnsAlone(s, c, w, n);
    PlayAppend(s, Turns(c, w, n), rest);
  }

  lemma BeginThen(s: System, c: Id, q: Request, rest: seq<Move>) returns (t: System)
    requires c !in s.jobs
    ensures Play(s, [Begin(c, q)] + rest) == Play(t, rest)
    ensures t.store == s.store && t.jobs == s.jobs[c := Begun(q)] && t.clock == s.clock + 1
  {
    hide Begun;
    t := Step(s, Begin(c, q));
    assert ([Begin(c, q)] + rest)[1..] == rest;
  }

  /** An update of an allocation that is there, by someone who may make it. */
  predicate CanUpdate(s: Store, w: World, q: Request) {
    && q.DoUpdate? && q.id > 0 && q.id in s.rows && s.rows[q.id].project == q.project && q.project in w.writable
    && Validate(q.input) == Some(q.input) && MayHold(w, q.project, q.input.user, q.anyUser)
  }

  lemma UpdateStarts(s: Store, w: World, q: Request, clock: nat)
    requires CanUpdate(s, w, q)
    ensures Alone(s, Begun(q), w, clock, 3) == (s, Job(q, Writing, q.id, Some(s.rows[q.id].fields), None, 0, 0, 0, 0, 0))
  {
    hide Validate, Changes, MayHold;
    var j := Locate(s, Begun(q), w);
    var k := Resolve(s, j, w);
    var m := Read(s, k);
    assert Alone(s, k, w, clock + 2, 1) == (s, m);
    assert Alone(s, j, w, clock + 1, 2) == (s, m);
  }

  function InPlace(s: Store, q: Request): Store
    requires q.DoUpdate? && q.id in s.rows
  {
    s.(rows := s.rows[q.id := s.rows[q.id].(fields := q.input)])
  }

  lemma UpdateWrites(s: Store, j: Job, w: World, clock: nat)
    requires j.phase == Writing && j.request.DoUpdate? && j.target == j.request.id && j.target in s.rows && Validate(j.request.input) == Some(j.request.input)
    ensures Alone(s, j, w, clock, 2)
      == (InPlace(s, j.request), j.(phase := Appending, after := Some(j.request.input), wroteAt := clock + 1, readAt := clock + 1))
  {
    hide Validate, Changes;
    var (t, k) := Write(s, j, clock);
    assert Alone(t, k, w, clock + 1, 1) == (t, Reread(t, k, clock + 1));
  }

  lemma LogsAlone(s: Store, j: Job, w: World, clock: nat)
    requires j.phase == Appending && Names(s.log, j.request)
    ensures Alone(s, j, w, clock, 1) == Append(s, j, clock)
  {
    hide EntryOf;
  }

  /** Two updates read, one writes, the other writes and logs, and then the first logs. */
  function CrossedUpdates(c: Id, d: Id, q: Request, r: Request, w: World): seq<Move> {
    [Begin(c, q)] + ([Begin(d, r)] + (Turns(c, w, 3) + (Turns(d, w, 3) + (Turns(c, w, 2) + (Turns(d, w, 2) + (Turns(d, w, 1) + Turns(c, w, 1)))))))
  }

  /** What two crossed updates leave: the fields of the second in the row, and in the last entry those of the first. */
  lemma UpdatesCross(run: seq<Move>, c: Id, d: Id, q: Request, r: Request, w: World)
    requires c != d && c !in At(run, |run|).jobs && d !in At(run, |run|).jobs
    requires CanUpdate(At(run, |run|).store, w, q) && CanUpdate(At(run, |run|).store, w, r) && q.id == r.id
    ensures var more := run + CrossedUpdates(c, d, q, r, w);
      var s := At(more, |more|);
      && c in s.jobs && d in s.jobs && Succeeded(s.jobs[c]) && Succeeded(s.jobs[d])
      && FieldsOf(s.store.rows, q.id) == Some(r.input) && Folded(s.store.log, q.id) == Some(q.input)
  {
    hide At, Play, Turns, Alone, Begun, CanUpdate;
    PlayedOn(run, CrossedUpdates(c, d, q, r, w));
    CrossedEnd(At(run, |run|), c, d, q, r, w);
  }

  lemma CrossedEnd(s: System, c: Id, d: Id, q: Request, r: Request, w: World)
    requires c != d && c !in s.jobs && d !in s.jobs && CanUpdate(s.store, w, q) && CanUpdate(s.store, w, r) && q.id == r.id
    ensures var t := Play(s, CrossedUpdates(c, d, q, r, w));
      && c in t.jobs && d in t.jobs && Succeeded(t.jobs[c]) && Succeeded(t.jobs[d])
      && FieldsOf(t.store.rows, q.id) == Some(r.input) && Folded(t.store.log, q.id) == Some(q.input)
  {
    hide Play, Turns, Alone, Begun, Validate, MayHold, Changes;
    var t := BeginThen(s, c, q, [Begin(d, r)] + (Turns(c, w, 3) + (Turns(d, w, 3) + (Turns(c, w, 2) + (Turns(d, w, 2) + (Turns(d, w, 1) + Turns(c, w, 1)))))));
    t := BeginThen(t, d, r, Turns(c, w, 3) + (Turns(d, w, 3) + (Turns(c, w, 2) + (Turns(d, w, 2) + (Turns(d, w, 1) + Turns(c, w, 1))))));
    UpdateStarts(t.store, w, q, t.clock);
    t := TurnsThen(t, c, w, 3, Turns(d, w, 3) + (Turns(c, w, 2) + (Turns(d, w, 2) + (Turns(d, w, 1) + Turns(c, w, 1)))));
    UpdateStarts(t.store, w, r, t.clock);
    t := TurnsThen(t, d, w, 3, Turns(c, w, 2) + (Turns(d, w, 2) + (Turns(d, w, 1) + Turns(c, w, 1))));
    CrossedWrites(t, c, d, w);
  }

  lemma CrossedWrites(s: System, c: Id, d: Id, w: World)
    requires c != d && c in s.jobs && d in s.jobs && s.jobs[c].target == s.jobs[d].target && s.jobs[c].target in s.store.rows
    requires forall e :: e == c || e == d ==>
      && s.jobs[e].phase == Writing && s.jobs[e].request.DoUpdate? && s.jobs[e].target == s.jobs[e].request.id
      && Validate(s.jobs[e].request.input) == Some(s.jobs[e].request.input)
    ensures var t, id := Play(s, Turns(c, w, 2) + (Turns(d, w, 2) + (Turns(d, w, 1) + Turns(c, w, 1)))), s.jobs[c].target;
      && c in t.jobs && d in t.jobs && Succeeded(t.jobs[c]) && Succeeded(t.jobs[d])
      && FieldsOf(t.store.rows, id) == Some(s.jobs[d].request.input) && Folded(t.store.log, id) == Some(s.jobs[c].request.input)
  {
    hide Play, Turns, Alone, Validate, Changes;
    UpdateWrites(s.store, s.jobs[c], w, s.clock);
    var t := TurnsThen(s, c, w, 2, Turns(d, w, 2) + (Turns(d, w, 1) + Turns(c, w, 1)));
    UpdateWrites(t.store, t.jobs[d], w, t.clock);
    t := TurnsThen(t, d, w, 2, Turns(d, w, 1) + Turns(c, w, 1));
    LogsAlone(t.store, t.jobs[d], w, t.clock);
    t := TurnsThen(t, d, w, 1, Turns(c, w, 1));
    LogsAlone(t.store, t.jobs[c], w, t.clock);
    TurnsAlone(t, c, w, 1);
  }

  /** An update has written; a deletion begins and ends; the update logs. */
  function DeletionBetween(c: Id, d: Id, q: Request, w: World): seq<Move>
    requires q.DoUpdate?
  {
    [Begin(c, q)] + (Turns(c, w, 3) + (Turns(c, w, 2) + ([Begin(d, DoDelete(q.project, q.id))] + (Turns(d, w, 7) + Turns(c, w, 1)))))
  }

  /** Whatever the update wrote: the row is gone, and the log says that it holds what the update wrote. */
  lemma UpdateOutlivesDeletion(run: seq<Move>, c: Id, d: Id, q: Request, w: World)
    requires c != d && c !in At(run, |run|).jobs && d !in At(run, |run|).jobs && CanUpdate(At(run, |run|).store, w, q)
    ensures var more := run + DeletionBetween(c, d, q, w);
      var s := At(more, |more|);
      && c in s.jobs && d in s.jobs && Succeeded(s.jobs[c]) && Succeeded(s.jobs[d])
      && FieldsOf(s.store.rows, q.id) == None && Folded(s.store.log, q.id) == Some(q.input)
  {
    hide At, Play, Turns, Alone, Begun, Validate, MayHold;
    PlayedOn(run, DeletionBetween(c, d, q, w));
    DeletionBetweenEnd(At(run, |run|), c, d, q, w);
  }

  lemma DeletionBetweenEnd(s: System, c: Id, d: Id, q: Request, w: World)
    requires c != d && c !in s.jobs && d !in s.jobs && CanUpdate(s.store, w, q)
    ensures var t := Play(s, DeletionBetween(c, d, q, w));
      && c in t.jobs && d in t.jobs && Succeeded(t.jobs[c]) && Succeeded(t.jobs[d])
      && FieldsOf(t.store.rows, q.id) == None && Folded(t.store.log, q.id) == Some(q.input)
  {
    hide Play, Turns, Alone, Begun, Validate, MayHold, Changes;
    var delete := DoDelete(q.project, q.id);
    var t := BeginThen(s, c, q, Turns(c, w, 3) + (Turns(c, w, 2) + ([Begin(d, delete)] + (Turns(d, w, 7) + Turns(c, w, 1)))));
    UpdateStarts(t.store, w, q, t.clock);
    t := TurnsThen(t, c, w, 3, Turns(c, w, 2) + ([Begin(d, delete)] + (Turns(d, w, 7) + Turns(c, w, 1))));
    UpdateWrites(t.store, t.jobs[c], w, t.clock);
    t := TurnsThen(t, c, w, 2, [Begin(d, delete)] + (Turns(d, w, 7) + Turns(c, w, 1)));
    t := BeginThen(t, d, delete, Turns(d, w, 7) + Turns(c, w, 1));
    AloneIsServe(t.store, w, delete, t.clock);
    t := TurnsThen(t, d, w, 7, Turns(c, w, 1));
    LogsAlone(t.store, t.jobs[c], w, t.clock);
    TurnsAlone(t, c, w, 1);
  }

  /** An undo of a deletion that can be undone. */
  predicate CanBringBack(s: Store, w: World, k: nat) {
    && k < |s.log| && s.log[k].action == Deleted && s.log[k].project in w.writable && !Undone(s.log, k)
    && s.log[k].before.Some? && Validate(s.log[k].before.value) == s.log[k].before && s.log[k].before.value.user in w.schedulable
  }

  /** Two undos of one entry check it, and then each goes on to its end. */
  function CrossedUndos(c: Id, d: Id, k: nat, w: World): seq<Move> {
    [Begin(c, DoRestore(k))] + ([Begin(d, DoRestore(k))] + (Turns(c, w, 2) + (Turns(d, w, 2) + (Turns(c, w, 4) + Turns(d, w, 4)))))
  }

  lemma UndoStarts(s: Store, w: World, k: nat, clock: nat)
    requires CanBringBack(s, w, k)
    ensures Alone(s, Begun(DoRestore(k)), w, clock, 2) == (s, Job(DoRestore(k), Resolving, s.log[k].target, None, None, clock + 1, 0, 0, 0, 0))
  {
    hide Validate, Changes, Undone;
    var j := Locate(s, Begun(DoRestore(k)), w);
    assert Alone(s, j, w, clock + 1, 1) == (s, Count(s, j, clock + 1));
  }

  predicate BroughtBack(s: Store, j: Job, id: Id, e: Entry) {
    j.phase == Finished(Ok(e.before)) && e.before.Some? && id in s.rows && s.rows[id] == Row(e.project, e.before.value)
  }

  lemma UndoEnds(s: Store, j: Job, w: World, clock: nat, k: nat)
    requires k < |s.log| && s.log[k].action == Deleted && s.log[k].before.Some? && Validate(s.log[k].before.value) == s.log[k].before
    requires s.log[k].before.value.user in w.schedulable && j.phase == Resolving && j.request == DoRestore(k)
    ensures var (t, m) := Alone(s, j, w, clock, 4);
      && BroughtBack(t, m, s.nextId, s.log[k]) && t.nextId == s.nextId + 1
      && t.rows == s.rows[s.nextId := Row(s.log[k].project, s.log[k].before.value)]
      && |t.log| == |s.log| + 1 && s.log <= t.log && IsUndo(t.log[|s.log|], k)
  {
    hide Alone, Validate, Changes;
    ResolvedAlone(s, j, w, clock, 4);
  }

  /** Both undos succeed: the log has two undos of the entry, and the allocation comes back as two rows. */
  lemma UndosCross(run: seq<Move>, c: Id, d: Id, k: nat, w: World)
    requires c != d && c !in At(run, |run|).jobs && d !in At(run, |run|).jobs && CanBringBack(At(run, |run|).store, w, k)
    ensures var more := run + CrossedUndos(c, d, k, w);
      var s, t := At(run, |run|).store, At(more, |more|);
      && c in t.jobs && d in t.jobs && UndoneTwice(t.store.log, k)
      && BroughtBack(t.store, t.jobs[c], s.nextId, s.log[k]) && BroughtBack(t.store, t.jobs[d], s.nextId + 1, s.log[k])
  {
    hide At, Play, Turns, CanBringBack, BroughtBack;
    PlayedOn(run, CrossedUndos(c, d, k, w));
    UndosCrossEnd(At(run, |run|), c, d, k, w);
  }

  lemma UndosCrossEnd(s: System, c: Id, d: Id, k: nat, w: World)
    requires c != d && c !in s.jobs && d !in s.jobs && CanBringBack(s.store, w, k)
    ensures var t := Play(s, CrossedUndos(c, d, k, w));
      && c in t.jobs && d in t.jobs && UndoneTwice(t.store.log, k)
      && BroughtBack(t.store, t.jobs[c], s.store.nextId, s.store.log[k]) && BroughtBack(t.store, t.jobs[d], s.store.nextId + 1, s.store.log[k])
  {
    hide Play, Turns, Alone, Begun, Validate, Undone;
    var n := |s.store.log|;
    var q := DoRestore(k);
    var t := BeginThen(s, c, q, [Begin(d, q)] + (Turns(c, w, 2) + (Turns(d, w, 2) + (Turns(c, w, 4) + Turns(d, w, 4)))));
    t := BeginThen(t, d, q, Turns(c, w, 2) + (Turns(d, w, 2) + (Turns(c, w, 4) + Turns(d, w, 4))));
    UndoStarts(t.store, w, k, t.clock);
    t := TurnsThen(t, c, w, 2, Turns(d, w, 2) + (Turns(c, w, 4) + Turns(d, w, 4)));
    UndoStarts(t.store, w, k, t.clock);
    t := TurnsThen(t, d, w, 2, Turns(c, w, 4) + Turns(d, w, 4));
    UndoEnds(t.store, t.jobs[c], w, t.clock, k);
    t := TurnsThen(t, c, w, 4, Turns(d, w, 4));
    UndoEnds(t.store, t.jobs[d], w, t.clock, k);
    TurnsAlone(t, d, w, 4);
    var u := Play(t, Turns(d, w, 4));
    assert IsUndo(u.store.log[n], k) && IsUndo(u.store.log[n + 1], k);
  }
}
