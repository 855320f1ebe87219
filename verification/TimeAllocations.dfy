/**
 Time allocations of project members, the log of their changes, and the undo of a logged change.

 Each request is served alone here: the change of the row and the entry in the log belong
 together. TimeAllocationRuns has the requests that interleave.
 */
module TimeAllocations {
  import opened Wrappers
  import opened Text

  type Id = nat

  /** The six tracked fields. Dates are day numbers. */
  datatype Fields = Fields(user: Id, start: int, end: int, hours: real, phase: string, note: string)

  datatype Row = Row(project: Id, fields: Fields)

  datatype Field = User | StartDate | EndDate | Hours | Phase | Note
  datatype Value = UserValue(user: Id) | DateValue(day: int) | HoursValue(hours: real) | TextValue(text: string)
  datatype Change = Change(field: Field, before: Option<Value>, after: Option<Value>)

  datatype Action = Created | Updated | Deleted | Restored

  /** An entry of the log; its number is its position. `source` is set on the entries that undo another. */
  datatype Entry = Entry(
    project: Id,
    action: Action,
    target: Id,
    before: Option<Fields>,
    after: Option<Fields>,
    changes: seq<Change>,
    source: Option<nat>)

  datatype Store = Store(rows: map<Id, Row>, nextId: Id, log: seq<Entry>)

  const EMPTY := Store(map[], 1, [])

  /** What the rest of the service says at the time of a request. */
  datatype World = World(projects: set<Id>, writable: set<Id>, schedulable: set<Id>, members: set<(Id, Id)>)

  datatype Error = BadInput | BadId | NotFound | NotWritable | NoSuchUser | AlreadyRestored | NoSnapshot | NotRestorable
  datatype Result = Ok(row: Option<Fields>) | Err(error: Error)

  // The recorded difference.

  const FIELDS := [User, StartDate, EndDate, Hours, Phase, Note]

  function ValueOf(f: Fields, field: Field): Value {
    match field
    case User => UserValue(f.user)
    case StartDate => DateValue(f.start)
    case EndDate => DateValue(f.end)
    case Hours => HoursValue(f.hours)
    case Phase => TextValue(f.phase)
    case Note => TextValue(f.note)
  }

  function Side(f: Option<Fields>, field: Field): Option<Value> {
    if f.Some? then Some(ValueOf(f.value, field)) else None
  }

  function ChangesOver(fields: seq<Field>, before: Option<Fields>, after: Option<Fields>): seq<Change> {
    if fields == [] then []
    else
      var b, a := Side(before, fields[0]), Side(after, fields[0]);
      (if before.Some? && after.Some? && b == a then [] else [Change(fields[0], b, a)]) + ChangesOver(fields[1..], before, after)
  }

  function Changes(before: Option<Fields>, after: Option<Fields>): seq<Change> {
    ChangesOver(FIELDS, before, after)
  }

  // Requests.

  function Validate(f: Fields): Option<Fields> {
    var phase, note := Trim(f.phase), Trim(f.note);
    if f.end < f.start || f.hours <= 0.0 || f.hours > 24.0 || |phase| > 200 || |note| > 500 then None
    else Some(f.(phase := phase, note := note))
  }

  function Logged(s: Store, project: Id, action: Action, target: Id, before: Option<Fields>, after: Option<Fields>, source: Option<nat>): Store {
    s.(log := s.log + [Entry(project, action, target, before, after, Changes(before, after), source)])
  }

  predicate MayHold(w: World, project: Id, user: Id, anyUser: bool) {
    if anyUser then user in w.schedulable else (project, user) in w.members
  }

  function Create(s: Store, w: World, project: Id, input: Fields, anyUser: bool): (Store, Result) {
    var f := Validate(input);
    if f.None? then (s, Err(BadInput))
    else if project !in w.projects then (s, Err(NotFound))
    else if project !in w.writable then (s, Err(NotWritable))
    else if !MayHold(w, project, f.value.user, anyUser) then (s, Err(NoSuchUser))
    else
      var t := s.(rows := s.rows[s.nextId := Row(project, f.value)], nextId := s.nextId + 1);
      (Logged(t, project, Created, s.nextId, None, f, None), Ok(f))
  }

  function Update(s: Store, w: World, project: Id, id: Id, input: Fields, anyUser: bool): (Store, Result) {
    var f := Validate(input);
    if id <= 0 then (s, Err(BadId))
    else if f.None? then (s, Err(BadInput))
    else if id !in s.rows || s.rows[id].project != project then (s, Err(NotFound))
    else if project !in w.writable then (s, Err(NotWritable))
    else if !MayHold(w, project, f.value.user, anyUser) then (s, Err(NoSuchUser))
    else
      var t := s.(rows := s.rows[id := Row(project, f.value)]);
      (Logged(t, project, Updated, id, Some(s.rows[id].fields), f, None), Ok(f))
  }

  function Delete(s: Store, w: World, project: Id, id: Id): (Store, Result) {
    if id <= 0 then (s, Err(BadId))
    else if id !in s.rows || s.rows[id].project != project then (s, Err(NotFound))
    else if project !in w.writable then (s, Err(NotWritable))
    else (Logged(s.(rows := s.rows - {id}), project, Deleted, id, Some(s.rows[id].fields), None, None), Ok(None))
  }

  predicate IsUndo(e: Entry, k: nat) {
    e.action == Restored && e.source == Some(k)
  }

  predicate Undone(log: seq<Entry>, k: nat) {
    exists j :: 0 <= j < |log| && IsUndo(log[j], k)
  }

  /** Undoes entry `k` of the log. */
  function Restore(s: Store, w: World, k: nat): (Store, Result) {
    if k >= |s.log| then (s, Err(NotFound))
    else
      var e := s.log[k];
      if e.project !in w.writable then (s, Err(NotWritable))
      else if Undone(s.log, k) then (s, Err(AlreadyRestored))
      else match e.action
        case Created =>
          if e.target !in s.rows then (s, Err(NotFound))
          else (Logged(s.(rows := s.rows - {e.target}), e.project, Restored, e.target, Some(s.rows[e.target].fields), None, Some(k)), Ok(None))
        case Updated =>
          if e.target !in s.rows then (s, Err(NotFound)) else RestoreUpdate(s, w, k)
        case Deleted => RestoreDeleted(s, w, k)
        case Restored => (s, Err(NotRestorable))
  }

  function RestoreUpdate(s: Store, w: World, k: nat): (Store, Result)
    requires k < |s.log| && s.log[k].target in s.rows
  {
    var e := s.log[k];
    if e.before.None? then (s, Err(NoSnapshot))
    else
      var f := Validate(e.before.value);
      if f.None? then (s, Err(BadInput))
      else if f.value.user !in w.schedulable then (s, Err(NoSuchUser))
      else
        var row := s.rows[e.target];
        var t := s.(rows := s.rows[e.target := row.(fields := f.value)]);
        (Logged(t, e.project, Restored, e.target, Some(row.fields), f, Some(k)), Ok(f))
  }

  function RestoreDeleted(s: Store, w: World, k: nat): (Store, Result)
    requires k < |s.log|
  {
    var e := s.log[k];
    if e.before.None? then (s, Err(NoSnapshot))
    else
      var f := Validate(e.before.value);
      if f.None? then (s, Err(BadInput))
      else if f.value.user !in w.schedulable then (s, Err(NoSuchUser))
      else
        var t := s.(rows := s.rows[s.nextId := Row(e.project, f.value)], nextId := s.nextId + 1);
        (Logged(t, e.project, Restored, s.nextId, None, f, Some(k)), Ok(f))
  }

  // Runs.

  datatype Request =
    | DoCreate(project: Id, input: Fields, anyUser: bool)
    | DoUpdate(project: Id, id: Id, input: Fields, anyUser: bool)
    | DoDelete(project: Id, id: Id)
    | DoRestore(entry: nat)

  function Serve(s: Store, w: World, q: Request): (Store, Result) {
    match q
    case DoCreate(project, input, anyUser) => Create(s, w, project, input, anyUser)
    case DoUpdate(project, id, input, anyUser) => Update(s, w, project, id, input, anyUser)
    case DoDelete(project, id) => Delete(s, w, project, id)
    case DoRestore(k) => Restore(s, w, k)
  }

  /** The world may change in any way between two requests. */
  datatype Served = Served(world: World, request: Request)

  function After(run: seq<Served>, i: nat): Store
    requires i <= |run|
  {
    if i == 0 then EMPTY else Serve(After(run, i - 1), run[i - 1].world, run[i - 1].request).0
  }

  // The recorded difference is a difference.

  function Written(f: Fields, field: Field, v: Value): Fields {
    match (field, v)
    case (User, UserValue(u)) => f.(user := u)
    case (StartDate, DateValue(d)) => f.(start := d)
    case (EndDate, DateValue(d)) => f.(end := d)
    case (Hours, HoursValue(h)) => f.(hours := h)
    case (Phase, TextValue(t)) => f.(phase := t)
    case (Note, TextValue(t)) => f.(note := t)
    case _ => f
  }

  /** Writes the new values of a list of changes. */
  function Apply(changes: seq<Change>, f: Fields): Fields {
    if changes == [] then f
    else Apply(changes[1..], if changes[0].after.Some? then Written(f, changes[0].field, changes[0].after.value) else f)
  }

  /** Writes the old values of a list of changes. */
  function Revert(changes: seq<Change>, f: Fields): Fields {
    if changes == [] then f
    else Revert(changes[1..], if changes[0].before.Some? then Written(f, changes[0].field, changes[0].before.value) else f)
  }

  /** A field is recorded unless both sides are there and agree on it. */
  predicate Differs(before: Option<Fields>, after: Option<Fields>, g: Field) {
    before.None? || after.None? || ValueOf(before.value, g) != ValueOf(after.value, g)
  }

  lemma WrittenReads(f: Fields, g: Field, other: Fields, h: Field)
    ensures ValueOf(Written(f, g, ValueOf(other, g)), h) == if g == h then ValueOf(other, g) else ValueOf(f, h)
  {
  }

  lemma {:induction false} ApplyWrites(fields: seq<Field>, before: Option<Fields>, after: Option<Fields>, f: Fields, g: Field)
    ensures var v := ValueOf(Apply(ChangesOver(fields, before, after), f), g);
      after.Some? ==> v == if g in fields && Differs(before, after, g) then ValueOf(after.value, g) else ValueOf(f, g)
    ensures var v := ValueOf(Revert(ChangesOver(fields, before, after), f), g);
      before.Some? ==> v == if g in fields && Differs(before, after, g) then ValueOf(before.value, g) else ValueOf(f, g)
  {
    if fields != [] {
      var h := fields[0];
      var all, rest := ChangesOver(fields, before, after), ChangesOver(fields[1..], before, after);
      assert g in fields <==> g == h || g in fields[1..];
      if Differs(before, after, h) {
        assert all[0] == Change(h, Side(before, h), Side(after, h)) && all[1..] == rest;
        if after.Some? {
          WrittenReads(f, h, after.value, g);
          ApplyWrites(fields[1..], before, after, Written(f, h, ValueOf(after.value, h)), g);
        }
        if before.Some? {
          WrittenReads(f, h, before.value, g);
          ApplyWrites(fields[1..], before, after, Written(f, h, ValueOf(before.value, h)), g);
        }
      } else {
        assert all == rest;
        ApplyWrites(fields[1..], before, after, f, g);
      }
    }
  }

  lemma EveryFieldIsTracked(g: Field)
    ensures g in FIELDS
  {
    assert FIELDS[0] == User && FIELDS[1] == StartDate && FIELDS[2] == EndDate && FIELDS[3] == Hours && FIELDS[4] == Phase && FIELDS[5] == Note;
  }

  lemma SameFields(f: Fields, g: Fields)
    requires forall h: Field :: ValueOf(f, h) == ValueOf(g, h)
    ensures f == g
  {
    assert ValueOf(f, User) == ValueOf(g, User) && ValueOf(f, StartDate) == ValueOf(g, StartDate) && ValueOf(f, EndDate) == ValueOf(g, EndDate);
    assert ValueOf(f, Hours) == ValueOf(g, Hours) && ValueOf(f, Phase) == ValueOf(g, Phase) && ValueOf(f, Note) == ValueOf(g, Note);
  }

  /**
   Applying a recorded difference to what was before gives what came after, and reverting it
   leads back; where one side is missing, the difference alone tells the other in full.
   */
  lemma DifferencesApply(before: Option<Fields>, after: Option<Fields>, base: Fields)
    ensures after.Some? && (before.Some? ==> base == before.value) ==> Apply(Changes(before, after), base) == after.value
    ensures before.Some? && (after.Some? ==> base == after.value) ==> Revert(Changes(before, after), base) == before.value
  {
    var changes := Changes(before, after);
    forall g: Field
      ensures after.Some? && (before.Some? ==> base == before.value) ==> ValueOf(Apply(changes, base), g) == ValueOf(after.value, g)
      ensures before.Some? && (after.Some? ==> base == after.value) ==> ValueOf(Revert(changes, base), g) == ValueOf(before.value, g)
    {
      ApplyWrites(FIELDS, before, after, base, g);
      EveryFieldIsTracked(g);
    }
    hide Apply, Revert, Changes, ValueOf;
    if after.Some? && (before.Some? ==> base == before.value) { SameFields(Apply(changes, base), after.value); }
    if before.Some? && (after.Some? ==> base == after.value) { SameFields(Revert(changes, base), before.value); }
  }

  /** A difference has an entry for a field exactly when the field differs, and an update that changes nothing records nothing. */
  lemma {:induction false} DifferencesAreMinimal(fields: seq<Field>, before: Option<Fields>, after: Option<Fields>, c: Change)
    ensures c in ChangesOver(fields, before, after)
      <==> c.field in fields && Differs(before, after, c.field) && c.before == Side(before, c.field) && c.after == Side(after, c.field)
  {
    if fields != [] {
      DifferencesAreMinimal(fields[1..], before, after, c);
      assert c.field in fields <==> c.field == fields[0] || c.field in fields[1..];
    }
  }

  // The invariant.

  function FieldsOf(rows: map<Id, Row>, id: Id): Option<Fields> {
    if id in rows then Some(rows[id].fields) else None
  }

  /** The `after` of the last entry about an allocation. */
  function Folded(log: seq<Entry>, id: Id): Option<Fields> {
    if log == [] then None
    else if log[|log| - 1].target == id then log[|log| - 1].after
    else Folded(log[..|log| - 1], id)
  }

  ghost predicate Stable(f: Option<Fields>) {
    f.Some? ==> Validate(f.value) == f
  }

  ghost predicate RowInv(s: Store) {
    s.nextId >= 1 && forall id :: id in s.rows ==> 1 <= id < s.nextId && Stable(Some(s.rows[id].fields))
  }

  ghost predicate EntryShape(e: Entry) {
    && Stable(e.before) && Stable(e.after) && e.changes == Changes(e.before, e.after)
    && (e.action == Restored <==> e.source.Some?)
    && (e.action == Created ==> e.before.None? && e.after.Some?)
    && (e.action == Updated ==> e.before.Some? && e.after.Some?)
    && (e.action == Deleted ==> e.before.Some? && e.after.None?)
  }

  ghost predicate LogInv(s: Store) {
    forall k :: 0 <= k < |s.log| ==> EntryShape(s.log[k]) && 1 <= s.log[k].target < s.nextId
  }

  /** Undo entries point backwards, never at each other, and no two at the same entry. */
  ghost predicate UndoInv(log: seq<Entry>) {
    && (forall j :: 0 <= j < |log| && log[j].source.Some? ==> log[j].source.value < j && log[log[j].source.value].action != Restored)
    && (forall i, j :: 0 <= i < |log| && 0 <= j < |log| && log[i].source.Some? && log[i].source == log[j].source ==> i == j)
  }

  ghost predicate FoldInv(s: Store) {
    forall id :: Folded(s.log, id) == FieldsOf(s.rows, id)
  }

  ghost predicate Inv(s: Store) {
    RowInv(s) && LogInv(s) && UndoInv(s.log) && FoldInv(s)
  }

  lemma ValidatedFieldsAreStable(f: Fields)
    ensures Stable(Validate(f))
  {
    TrimIsStable(f.phase);
    TrimIsStable(f.note);
    hide Trim;
  }

  /** The common form of every accepted request: one row takes the value the new entry records. */
  ghost predicate Accepted(s: Store, t: Store, e: Entry) {
    && t.log == s.log + [e] && s.nextId <= t.nextId && 1 <= e.target < t.nextId
    && EntryShape(e) && e.before == FieldsOf(s.rows, e.target)
    && (forall id :: FieldsOf(t.rows, id) == if id == e.target then e.after else FieldsOf(s.rows, id))
    && (e.source.Some? ==> e.source.value < |s.log| && s.log[e.source.value].action != Restored && !Undone(s.log, e.source.value))
  }

  lemma RowsStaySound(s: Store, t: Store, e: Entry)
    requires RowInv(s) && Accepted(s, t, e)
    ensures RowInv(t)
  {
    hide Changes, Validate, Undone;
    forall id | id in t.rows
      ensures 1 <= id < t.nextId && Stable(Some(t.rows[id].fields))
    {
      assert FieldsOf(t.rows, id) == if id == e.target then e.after else FieldsOf(s.rows, id);
    }
  }

  lemma LogStaysSound(s: Store, t: Store, e: Entry)
    requires LogInv(s) && Accepted(s, t, e)
    ensures LogInv(t)
  {
    hide EntryShape, FieldsOf, Undone;
  }

  lemma UndosStaySound(log: seq<Entry>, e: Entry)
    requires UndoInv(log)
    requires e.source.Some? ==> e.source.value < |log| && log[e.source.value].action != Restored && !Undone(log, e.source.value)
    requires forall k :: 0 <= k < |log| && log[k].source.Some? ==> log[k].action == Restored
    ensures UndoInv(log + [e])
  {
    var more := log + [e];
    assert forall k :: 0 <= k < |log| ==> more[k] == log[k];
    forall i | 0 <= i < |log| && more[i].source.Some? && more[i].source == e.source
      ensures false
    {
      assert IsUndo(log[i], e.source.value);
    }
  }

  lemma FoldStaysSound(s: Store, t: Store, e: Entry)
    requires FoldInv(s) && Accepted(s, t, e)
    ensures FoldInv(t)
  {
    hide EntryShape, FieldsOf, Undone;
    assert t.log[..|t.log| - 1] == s.log;
  }

  lemma AcceptedIsSound(s: Store, t: Store, e: Entry)
    requires Inv(s) && Accepted(s, t, e)
    ensures Inv(t)
  {
    RowsStaySound(s, t, e);
    LogStaysSound(s, t, e);
    FoldStaysSound(s, t, e);
    assert forall k :: 0 <= k < |s.log| && s.log[k].source.Some? ==> s.log[k].action == Restored;
    UndosStaySound(s.log, e);
  }

  /** Every request is refused without effect or accepted in that form. */
  ghost predicate InForm(s: Store, t: Store, r: Result) {
    if r.Err? then t == s else |t.log| == |s.log| + 1 && Accepted(s, t, t.log[|s.log|]) && t.log[|s.log|].after == r.row
  }

  lemma RowParts(s: Store, id: Id)
    requires Inv(s)
    ensures s.nextId >= 1 && s.nextId !in s.rows && Stable(None)
    ensures id in s.rows ==> 1 <= id < s.nextId && Stable(Some(s.rows[id].fields))
  {
    hide LogInv, UndoInv, FoldInv, Validate;
  }

  lemma CreateInForm(s: Store, w: World, project: Id, input: Fields, anyUser: bool)
    requires Inv(s)
    ensures InForm(s, Create(s, w, project, input, anyUser).0, Create(s, w, project, input, anyUser).1)
  {
    hide Inv, Changes, Validate, Undone, Stable;
    ValidatedFieldsAreStable(input);
    RowParts(s, s.nextId);
  }

  lemma UpdateInForm(s: Store, w: World, project: Id, id: Id, input: Fields, anyUser: bool)
    requires Inv(s)
    ensures InForm(s, Update(s, w, project, id, input, anyUser).0, Update(s, w, project, id, input, anyUser).1)
  {
    hide Inv, Changes, Validate, Undone, Stable;
    ValidatedFieldsAreStable(input);
    RowParts(s, id);
  }

  lemma DeleteInForm(s: Store, w: World, project: Id, id: Id)
    requires Inv(s)
    ensures InForm(s, Delete(s, w, project, id).0, Delete(s, w, project, id).1)
  {
    hide Inv, Changes, Validate, Undone;
    RowParts(s, id);
  }

  lemma EntryParts(s: Store, k: nat)
    requires Inv(s) && k < |s.log|
    ensures EntryShape(s.log[k]) && 1 <= s.log[k].target < s.nextId && s.nextId !in s.rows
    ensures s.log[k].target in s.rows ==> Stable(Some(s.rows[s.log[k].target].fields))
  {
    hide UndoInv, FoldInv, Validate, Changes;
    assert EntryShape(s.log[k]);
  }

  lemma RestoreInForm(s: Store, w: World, k: nat)
    requires Inv(s)
    ensures InForm(s, Restore(s, w, k).0, Restore(s, w, k).1)
  {
    hide Inv, Changes, Validate, Undone, RestoreUpdate, RestoreDeleted;
    if k < |s.log| {
      EntryParts(s, k);
      if s.log[k].action == Updated && s.log[k].target in s.rows && !Undone(s.log, k) { RestoreUpdateInForm(s, w, k); }
      if s.log[k].action == Deleted && !Undone(s.log, k) { RestoreDeletedInForm(s, w, k); }
    }
  }

  lemma RestoreUpdateInForm(s: Store, w: World, k: nat)
    requires Inv(s) && k < |s.log| && s.log[k].action == Updated && s.log[k].target in s.rows && !Undone(s.log, k)
    ensures InForm(s, RestoreUpdate(s, w, k).0, RestoreUpdate(s, w, k).1)
  {
    hide Inv, Changes, Validate, Undone;
    EntryParts(s, k);
  }

  lemma RestoreDeletedInForm(s: Store, w: World, k: nat)
    requires Inv(s) && k < |s.log| && s.log[k].action == Deleted && !Undone(s.log, k)
    ensures InForm(s, RestoreDeleted(s, w, k).0, RestoreDeleted(s, w, k).1)
  {
    hide Inv, Changes, Validate, Undone;
    EntryParts(s, k);
  }

  lemma ServedInForm(s: Store, w: World, q: Request)
    requires Inv(s)
    ensures InForm(s, Serve(s, w, q).0, Serve(s, w, q).1)
  {
    hide Inv, InForm, Create, Update, Delete, Restore;
    match q
    case DoCreate(project, input, anyUser) => CreateInForm(s, w, project, input, anyUser);
    case DoUpdate(project, id, input, anyUser) => UpdateInForm(s, w, project, id, input, anyUser);
    case DoDelete(project, id) => DeleteInForm(s, w, project, id);
    case DoRestore(k) => RestoreInForm(s, w, k);
  }

  lemma {:induction false} RunIsSound(run: seq<Served>, i: nat)
    requires i <= |run|
    ensures Inv(After(run, i))
  {
    hide Inv, Serve, Accepted;
    if i == 0 {
      EmptyIsSound();
    } else {
      RunIsSound(run, i - 1);
      RequestIsSound(After(run, i - 1), run[i - 1].world, run[i - 1].request);
    }
  }

  lemma EmptyIsSound()
    ensures Inv(EMPTY)
  {
  }

  // What the log is good for.

  /** When every request is served alone, the last entry about an allocation tells its tracked fields, and that it is gone if it is. */
  lemma LogReproducesTable(run: seq<Served>, i: nat, id: Id)
    requires i <= |run|
    ensures Folded(After(run, i).log, id) == FieldsOf(After(run, i).rows, id)
  {
    RunIsSound(run, i);
  }

  /** The log is never rewritten. */
  lemma {:induction false} LogOnlyGrows(run: seq<Served>, i: nat, j: nat)
    requires i <= j <= |run|
    ensures After(run, i).log <= After(run, j).log
    decreases j
  {
    hide Inv, Serve;
    if i < j {
      LogOnlyGrows(run, i, j - 1);
      RunIsSound(run, j - 1);
      ServingAppends(After(run, j - 1), run[j - 1].world, run[j - 1].request);
    }
  }

  lemma ServingAppends(s: Store, w: World, q: Request)
    requires Inv(s)
    ensures s.log <= Serve(s, w, q).0.log
  {
    hide Inv, Serve, EntryShape, FieldsOf;
    ServedInForm(s, w, q);
  }

  /** When every request is served alone, no entry of the log is ever undone twice, and an undo is never undone. */
  lemma UndoneAtMostOnce(run: seq<Served>, i: nat, j: nat, k: nat, source: nat)
    requires i <= |run| && j < |After(run, i).log| && k < |After(run, i).log|
    requires IsUndo(After(run, i).log[j], source) && IsUndo(After(run, i).log[k], source)
    ensures j == k && source < j && After(run, i).log[source].action != Restored
  {
    RunIsSound(run, i);
    hide RowInv, LogInv, FoldInv;
  }

  /** Exactly when an undo is accepted, whatever has happened since the entry was written. */
  predicate CanUndo(s: Store, w: World, k: nat) {
    && k < |s.log| && s.log[k].project in w.writable && !Undone(s.log, k)
    && match s.log[k].action
       case Created => s.log[k].target in s.rows
       case Updated => s.log[k].target in s.rows && s.log[k].before.Some? && s.log[k].before.value.user in w.schedulable
       case Deleted => s.log[k].before.Some? && s.log[k].before.value.user in w.schedulable
       case Restored => false
  }

  /** An accepted undo brings back exactly the fields from before the entry: in place, or for a deletion as a new row of the same project. */
  lemma UndoBringsBack(run: seq<Served>, i: nat, w: World, k: nat)
    requires i <= |run|
    ensures var s := After(run, i);
      var (t, r) := Restore(s, w, k);
      && (r.Ok? <==> CanUndo(s, w, k))
      && (r.Ok? ==>
            var e := s.log[k];
            var id := if e.action == Deleted then s.nextId else e.target;
            && r.row == e.before == FieldsOf(t.rows, id)
            && (e.action == Deleted ==> t.rows[id].project == e.project)
            && (e.action == Updated ==> t.rows[id].project == s.rows[id].project)
            && (forall other :: other != id ==> FieldsOf(t.rows, other) == FieldsOf(s.rows, other)))
  {
    hide Inv, After, Changes, Validate, Undone;
    var s := After(run, i);
    RunIsSound(run, i);
    if k < |s.log| { EntryParts(s, k); }
  }

  /** Undoing an update right after it leaves every row as it was before. */
  lemma UndoInverts(run: seq<Served>, i: nat, w: World, project: Id, id: Id, input: Fields, anyUser: bool, v: World)
    requires i <= |run|
    requires Update(After(run, i), w, project, id, input, anyUser).1.Ok?
    requires project in v.writable && After(run, i).rows[id].fields.user in v.schedulable
    ensures var s := After(run, i);
      var t := Update(s, w, project, id, input, anyUser).0;
      var (u, r) := Restore(t, v, |s.log|);
      r == Ok(Some(s.rows[id].fields)) && u.rows == s.rows
  {
    hide Inv, InForm, Changes, Validate, Undone;
    var more := run[..i] + [Served(w, DoUpdate(project, id, input, anyUser))];
    SameRun(run, more, i);
    var s := After(run, i);
    var t := Update(s, w, project, id, input, anyUser).0;
    assert After(more, i + 1) == t;
    RunIsSound(more, i + 1);
    hide After;
    NotYetUndone(t, |s.log|);
    RestoredRow(t, v, |s.log|);
  }

  lemma RestoredRow(t: Store, v: World, k: nat)
    requires Inv(t) && k + 1 == |t.log| && t.log[k].action == Updated && t.log[k].target in t.rows && !Undone(t.log, k)
    requires t.log[k].project in v.writable && t.log[k].before.Some? && t.log[k].before.value.user in v.schedulable
    ensures var e := t.log[k];
      Restore(t, v, k).1 == Ok(e.before) && Restore(t, v, k).0.rows == t.rows[e.target := t.rows[e.target].(fields := e.before.value)]
  {
    hide Inv, Changes, Validate, Undone;
    EntryParts(t, k);
  }

  lemma NotYetUndone(t: Store, k: nat)
    requires Inv(t) && k + 1 == |t.log|
    ensures !Undone(t.log, k)
  {
    hide RowInv, LogInv, FoldInv;
  }

  lemma {:induction false} SameRun(run: seq<Served>, other: seq<Served>, i: nat)
    requires i <= |run| && i <= |other| && run[..i] == other[..i]
    ensures After(run, i) == After(other, i)
  {
    hide Serve;
    if i > 0 {
      assert run[..i - 1] == run[..i][..i - 1] == other[..i - 1];
      assert run[i - 1] == run[..i][i - 1] == other[i - 1];
      SameRun(run, other, i - 1);
    }
  }

  class Database {
    var rows: map<Id, Row>
    var nextId: Id
    var log: seq<Entry>

    function View(): Store
      reads this
    {
      Store(rows, nextId, log)
    }

    ghost predicate Valid()
      reads this
    {
      Inv(View())
    }

    constructor ()
      ensures Valid() && View() == EMPTY
    {
      rows, nextId, log := map[], 1, [];
      new;
      EmptyIsSound();
    }

    method AppendActivity(project: Id, action: Action, target: Id, before: Option<Fields>, after: Option<Fields>, source: Option<nat>)
      modifies this`log
      ensures View() == Logged(old(View()), project, action, target, before, after, source)
    {
      log := log + [Entry(project, action, target, before, after, Changes(before, after), source)];
    }

    method CreateAllocation(w: World, project: Id, input: Fields, anyUser: bool) returns (r: Result)
      requires Valid()
      modifies this
      ensures Valid() && (View(), r) == Create(old(View()), w, project, input, anyUser)
    {
      hide Inv, InForm, Validate, Changes;
      RequestIsSound(View(), w, DoCreate(project, input, anyUser));
      var f := Validate(input);
      if f.None? {
        r := Err(BadInput);
      } else if project !in w.projects {
        r := Err(NotFound);
      } else if project !in w.writable {
        r := Err(NotWritable);
      } else if !MayHold(w, project, f.value.user, anyUser) {
        r := Err(NoSuchUser);
      } else {
        var id := nextId;
        rows := rows[id := Row(project, f.value)];
        nextId := nextId + 1;
        AppendActivity(project, Created, id, None, f, None);
        r := Ok(f);
      }
    }

    method UpdateAllocation(w: World, project: Id, id: Id, input: Fields, anyUser: bool) returns (r: Result)
      requires Valid()
      modifies this
      ensures Valid() && (View(), r) == Update(old(View()), w, project, id, input, anyUser)
    {
      hide Inv, InForm, Validate, Changes;
      RequestIsSound(View(), w, DoUpdate(project, id, input, anyUser));
      var f := Validate(input);
      if id == 0 {
        r := Err(BadId);
      } else if f.None? {
        r := Err(BadInput);
      } else if id !in rows || rows[id].project != project {
        r := Err(NotFound);
      } else if project !in w.writable {
        r := Err(NotWritable);
      } else if !MayHold(w, project, f.value.user, anyUser) {
        r := Err(NoSuchUser);
      } else {
        var before := rows[id].fields;
        rows := rows[id := Row(project, f.value)];
        AppendActivity(project, Updated, id, Some(before), f, None);
        r := Ok(f);
      }
    }

    method DeleteAllocation(w: World, project: Id, id: Id) returns (r: Result)
      requires Valid()
      modifies this
      ensures Valid() && (View(), r) == Delete(old(View()), w, project, id)
    {
      hide Inv, InForm, Changes;
      RequestIsSound(View(), w, DoDelete(project, id));
      if id == 0 {
        r := Err(BadId);
      } else if id !in rows || rows[id].project != project {
        r := Err(NotFound);
      } else if project !in w.writable {
        r := Err(NotWritable);
      } else {
        var before := rows[id].fields;
        rows := rows - {id};
        AppendActivity(project, Deleted, id, Some(before), None, None);
        r := Ok(None);
      }
    }

    /** Undoes a logged change, once. */
    method RestoreFromRecord(w: World, k: nat) returns (r: Result)
      requires Valid()
      modifies this
      ensures Valid() && (View(), r) == Restore(old(View()), w, k)
    {
      hide Inv, InForm, Validate, Changes;
      RequestIsSound(View(), w, DoRestore(k));
      if k >= |log| {
        r := Err(NotFound);
      } else if log[k].project !in w.writable {
        r := Err(NotWritable);
      } else if Undone(log, k) {
        r := Err(AlreadyRestored);
      } else if log[k].action == Restored {
        r := Err(NotRestorable);
      } else if log[k].action != Deleted && log[k].target !in rows {
        r := Err(NotFound);
      } else if log[k].action == Created {
        var before := rows[log[k].target].fields;
        rows := rows - {log[k].target};
        AppendActivity(log[k].project, Restored, log[k].target, Some(before), None, Some(k));
        r := Ok(None);
      } else {
        r := RestoreSnapshot(w, k);
      }
    }

    /** Puts the fields from before an update or a deletion back. */
    method RestoreSnapshot(w: World, k: nat) returns (r: Result)
      requires k < |log| && (log[k].action == Deleted || (log[k].action == Updated && log[k].target in rows))
      modifies this
      ensures (View(), r) == if old(log)[k].action == Deleted then RestoreDeleted(old(View()), w, k) else RestoreUpdate(old(View()), w, k)
    {
      hide Validate, Changes;
      var e := log[k];
      var f := if e.before.Some? then Validate(e.before.value) else None;
      if e.before.None? {
        r := Err(NoSnapshot);
      } else if f.None? {
        r := Err(BadInput);
      } else if f.value.user !in w.schedulable {
        r := Err(NoSuchUser);
      } else if e.action == Deleted {
        var id := nextId;
        rows := rows[id := Row(e.project, f.value)];
        nextId := nextId + 1;
        AppendActivity(e.project, Restored, id, None, f, Some(k));
        r := Ok(f);
      } else {
        var before := rows[e.target].fields;
        rows := rows[e.target := rows[e.target].(fields := f.value)];
        AppendActivity(e.project, Restored, e.target, Some(before), f, Some(k));
        r := Ok(f);
      }
    }
  }

  /** Every request keeps the invariant. */
  lemma RequestIsSound(s: Store, w: World, q: Request)
    requires Inv(s)
    ensures Inv(Serve(s, w, q).0)
  {
    hide Inv, Serve, Accepted;
    ServedInForm(s, w, q);
    var (t, r) := Serve(s, w, q);
    if r.Ok? { AcceptedIsSound(s, t, t.log[|s.log|]); }
  }
}
