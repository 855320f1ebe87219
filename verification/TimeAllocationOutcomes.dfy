/**
 What each accepted request about a time allocation stores and logs, field by field, and
 exactly when it is accepted.
 */
module TimeAllocationOutcomes {
  import opened Wrappers
  import opened Text
  import opened TimeAllocations

  /** The fields `f` are what was given, with the two texts trimmed, and they may be stored. */
  ghost predicate Cleans(given: Fields, f: Fields) {
    && f.user == given.user && f.start == given.start && f.end == given.end && f.hours == given.hours
    && IsTrimmed(given.phase, f.phase) && IsTrimmed(given.note, f.note)
    && f.start <= f.end && 0.0 < f.hours <= 24.0 && |f.phase| <= 200 && |f.note| <= 500
  }

  lemma CleansIffValid(given: Fields, f: Fields)
    ensures Cleans(given, f) <==> Validate(given) == Some(f)
  {
    hide IsTrimmed, Trim;
    TrimIff(given.phase, f.phase);
    TrimIff(given.note, f.note);
  }

  ghost predicate Clean(given: Fields) {
    exists f :: Cleans(given, f)
  }

  lemma CleanIffValid(given: Fields)
    ensures Clean(given) <==> Validate(given).Some?
  {
    hide Cleans, Validate;
    if Validate(given).Some? { CleansIffValid(given, Validate(given).value); }
    forall f | Cleans(given, f) ensures Validate(given) == Some(f) { CleansIffValid(given, f); }
  }

  /** The caller may give the project's time to this user: any active one, or a member of the project. */
  predicate Holds(w: World, project: Id, user: Id, anyUser: bool) {
    if anyUser then user in w.schedulable else (project, user) in w.members
  }

  /** The log has one more entry, about this allocation, with both sides of the change and their difference. */
  ghost predicate Logs(s: Store, t: Store, project: Id, action: Action, target: Id, before: Option<Fields>, after: Option<Fields>, source: Option<nat>) {
    && |t.log| == |s.log| + 1 && t.log[..|s.log|] == s.log
    && var e := t.log[|s.log|];
    && e.project == project && e.action == action && e.target == target && e.before == before && e.after == after && e.source == source
    && forall c :: c in e.changes <==> Differs(before, after, c.field) && c.before == Side(before, c.field) && c.after == Side(after, c.field)
  }

  lemma LoggedLogs(s: Store, t: Store, project: Id, action: Action, target: Id, before: Option<Fields>, after: Option<Fields>, source: Option<nat>)
    requires s.log == t.log
    ensures Logs(s, Logged(t, project, action, target, before, after, source), project, action, target, before, after, source)
  {
    var u := Logged(t, project, action, target, before, after, source);
    forall c ensures c in u.log[|s.log|].changes <==> Differs(before, after, c.field) && c.before == Side(before, c.field) && c.after == Side(after, c.field) {
      DifferencesAreMinimal(FIELDS, before, after, c);
      EveryFieldIsTracked(c.field);
    }
    hide Changes, Differs, Side;
  }

  /** What the request at step `i` of a serial run begins with, ends with and answers. */
  ghost predicate ServedAt(run: seq<Served>, i: nat, s: Store, t: Store, r: Result) {
    i < |run| && s == After(run, i) && t == After(run, i + 1) && r == Serve(s, run[i].world, run[i].request).1
  }

  lemma ServedSteps(run: seq<Served>, i: nat, s: Store, t: Store, r: Result)
    requires ServedAt(run, i, s, t, r)
    ensures Serve(s, run[i].world, run[i].request) == (t, r) && s.nextId >= 1
    ensures forall id :: id in s.rows ==> 1 <= id < s.nextId
  {
    hide Serve, LogInv, FoldInv, UndoInv, Stable;
    RunIsSound(run, i);
  }

  /**
   An allocation is created exactly for clean fields, in a known project that takes writes, for
   a user who may hold it. It is then a new row with just those fields, and the log says so.
   */
  lemma CreateStores(run: seq<Served>, i: nat, s: Store, t: Store, r: Result, project: Id, given: Fields, anyUser: bool)
    requires ServedAt(run, i, s, t, r) && run[i].request == DoCreate(project, given, anyUser)
    ensures var w := run[i].world;
      if Clean(given) && project in w.projects && project in w.writable && Holds(w, project, given.user, anyUser)
      then
        && r.Ok? && r.row.Some? && Cleans(given, r.row.value) && s.nextId !in s.rows
        && t.rows == s.rows[s.nextId := Row(project, r.row.value)] && t.nextId == s.nextId + 1
        && Logs(s, t, project, Created, s.nextId, None, r.row, None)
      else r.Err? && t == s
  {
    hide Validate, Cleans, Clean, Logs, Logged, After;
    ServedSteps(run, i, s, t, r);
    CleanIffValid(given);
    if Validate(given).Some? {
      CleansIffValid(given, Validate(given).value);
      KeepsUser(given);
      var f := Validate(given);
      LoggedLogs(s, s.(rows := s.rows[s.nextId := Row(project, f.value)], nextId := s.nextId + 1), project, Created, s.nextId, None, f, None);
      LoggedKeeps(s.(rows := s.rows[s.nextId := Row(project, f.value)], nextId := s.nextId + 1), project, Created, s.nextId, None, f, None);
    }
  }

  lemma KeepsUser(given: Fields)
    ensures Validate(given).Some? ==> Validate(given).value.user == given.user
  {
    hide Trim;
  }

  lemma LoggedKeeps(s: Store, project: Id, action: Action, target: Id, before: Option<Fields>, after: Option<Fields>, source: Option<nat>)
    ensures var t := Logged(s, project, action, target, before, after, source); t.rows == s.rows && t.nextId == s.nextId
  {
  }

  /** The allocation is there, in this project, and the project takes writes. */
  predicate Writable(s: Store, w: World, project: Id, id: Id) {
    id in s.rows && s.rows[id].project == project && project in w.writable
  }

  /** An allocation is updated exactly when it is there, in a project that takes writes, for clean fields and a user who may hold it. It then has just those fields. */
  lemma UpdateStores(run: seq<Served>, i: nat, s: Store, t: Store, r: Result, project: Id, id: Id, given: Fields, anyUser: bool)
    requires ServedAt(run, i, s, t, r) && run[i].request == DoUpdate(project, id, given, anyUser)
    ensures var w := run[i].world;
      if Clean(given) && Writable(s, w, project, id) && Holds(w, project, given.user, anyUser)
      then
        && r.Ok? && r.row.Some? && Cleans(given, r.row.value)
        && t.rows == s.rows[id := Row(project, r.row.value)] && t.nextId == s.nextId
        && Logs(s, t, project, Updated, id, Some(s.rows[id].fields), r.row, None)
      else r.Err? && t == s
  {
    hide Validate, Cleans, Clean, Logs, Logged, After;
    ServedSteps(run, i, s, t, r);
    CleanIffValid(given);
    if Validate(given).Some? && id in s.rows {
      CleansIffValid(given, Validate(given).value);
      KeepsUser(given);
      var f := Validate(given);
      LoggedLogs(s, s.(rows := s.rows[id := Row(project, f.value)]), project, Updated, id, Some(s.rows[id].fields), f, None);
      LoggedKeeps(s.(rows := s.rows[id := Row(project, f.value)]), project, Updated, id, Some(s.rows[id].fields), f, None);
    }
  }

  /** An allocation is deleted exactly when it is there, in a project that takes writes; the log keeps its fields. */
  lemma DeleteRemoves(run: seq<Served>, i: nat, s: Store, t: Store, r: Result, project: Id, id: Id)
    requires ServedAt(run, i, s, t, r) && run[i].request == DoDelete(project, id)
    ensures if Writable(s, run[i].world, project, id)
      then r == Ok(None) && t.rows == s.rows - {id} && t.nextId == s.nextId && Logs(s, t, project, Deleted, id, Some(s.rows[id].fields), None, None)
      else r.Err? && t == s
  {
    hide Logs, Logged, After;
    ServedSteps(run, i, s, t, r);
    if id in s.rows {
      LoggedLogs(s, s.(rows := s.rows - {id}), project, Deleted, id, Some(s.rows[id].fields), None, None);
      LoggedKeeps(s.(rows := s.rows - {id}), project, Deleted, id, Some(s.rows[id].fields), None, None);
    }
  }

  /** Undoing a deletion right after it brings the allocation back with the fields it had, under a new id. */
  lemma DeletionIsUndone(run: seq<Served>, i: nat, s: Store, t: Store, r: Result, project: Id, id: Id, v: World)
    requires ServedAt(run, i, s, t, r) && run[i].request == DoDelete(project, id) && r.Ok?
    requires project in v.writable && id in s.rows && s.rows[id].fields.user in v.schedulable
    ensures var (u, back) := Restore(t, v, |s.log|);
      back == Ok(Some(s.rows[id].fields)) && u.rows == (s.rows - {id})[s.nextId := s.rows[id]]
  {
    hide After, Serve, Restore, Inv, Undone;
    DeleteRemoves(run, i, s, t, r, project, id);
    RunIsSound(run, i + 1);
    NotYetUndone(t, |s.log|);
    BackAsRow(t, v, |s.log|, s.rows[id], project);
  }

  lemma BackAsRow(t: Store, v: World, k: nat, row: Row, project: Id)
    requires Inv(t) && k + 1 == |t.log| && t.log[k].action == Deleted && t.log[k].before == Some(row.fields) && t.log[k].project == project
    requires !Undone(t.log, k) && project in v.writable && row.fields.user in v.schedulable
    ensures var (u, back) := Restore(t, v, k);
      back == Ok(Some(row.fields)) && u.rows == t.rows[t.nextId := Row(project, row.fields)]
  {
    hide Inv, Changes, Validate, Undone;
    EntryParts(t, k);
  }

  /** An undo that is accepted logs itself: what the row held, what it holds now, and which entry is undone. */
  lemma UndoLogs(run: seq<Served>, i: nat, s: Store, t: Store, r: Result, k: nat)
    requires ServedAt(run, i, s, t, r) && run[i].request == DoRestore(k) && r.Ok?
    ensures k < |s.log|
      && var e := s.log[k];
         var id := if e.action == Deleted then s.nextId else e.target;
         Logs(s, t, e.project, Restored, id, FieldsOf(s.rows, id), FieldsOf(t.rows, id), Some(k))
  {
    hide After, Validate, Undone, Logs, Logged;
    ServedSteps(run, i, s, t, r);
    var e := s.log[k];
    var id := if e.action == Deleted then s.nextId else e.target;
    var before := FieldsOf(s.rows, id);
    var after := if e.action == Created || e.before.None? then None else Validate(e.before.value);
    var u := if after.None? then s.(rows := s.rows - {id})
      else if e.action == Deleted then s.(rows := s.rows[id := Row(e.project, after.value)], nextId := s.nextId + 1)
      else if id in s.rows then s.(rows := s.rows[id := s.rows[id].(fields := after.value)]) else s;
    LoggedLogs(s, u, e.project, Restored, id, before, after, Some(k));
    LoggedKeeps(u, e.project, Restored, id, before, after, Some(k));
  }
}
