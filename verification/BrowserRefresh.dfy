/**
 Rotation of browser refresh tokens.

 A refresh call is three separate accesses to the database: a read, a transaction that
 swaps the row by compare-and-swap, and a second read when the swap found the row taken.
 `Tables` are the database, the functions on them its atomic accesses; a `System` adds any
 number of calls in flight, and a run interleaves their accesses with logins, logouts,
 password changes and account changes. Clock values are the whole seconds of the database.
 */
module BrowserRefresh {
  import opened Wrappers

  type Id = nat

  datatype Session = Session(accessToken: Id, refreshToken: Id)

  datatype Status = Active | Revoked
  datatype Reason = Unset | Rotated | Other

  /** `recovery` is the pair of ciphertexts, opened; both columns are set and cleared together. */
  datatype Row = Row(
    token: Id,
    user: Id,
    status: Status,
    reason: Reason,
    expiresAt: int,
    recovery: Option<Session>,
    recoveryExpiresAt: Option<int>)

  datatype Tables = Tables(users: map<Id, bool>, sessions: map<Id, Id>, rows: map<nat, Row>, nextId: nat)

  datatype Ttls = Ttls(refresh: int, recovery: int)

  predicate IsTokenRow(t: Tables, id: nat, token: Id) {
    id in t.rows && t.rows[id].token == token
  }

  predicate TokenTaken(t: Tables, token: Id) {
    exists id :: id in t.rows && t.rows[id].token == token
  }

  ghost function RowOf(t: Tables, token: Id): (r: Option<nat>)
    ensures r.Some? ==> IsTokenRow(t, r.value, token)
    ensures r.None? ==> !TokenTaken(t, token)
  {
    if TokenTaken(t, token) then
      var id :| id in t.rows && t.rows[id].token == token; Some(id)
    else None
  }

  predicate Readable(t: Tables, row: Row, now: int) {
    && row.user in t.users && t.users[row.user]
    && ((row.status == Active && row.expiresAt > now)
        || (row.status == Revoked && row.reason == Rotated && row.recoveryExpiresAt.Some? && row.recoveryExpiresAt.value > now))
  }

  /** The read of a refresh call. */
  ghost function Find(t: Tables, token: Id, now: int): (r: Option<nat>)
    ensures r.Some? ==> IsTokenRow(t, r.value, token) && Readable(t, t.rows[r.value], now)
  {
    match RowOf(t, token)
    case None => None
    case Some(id) => if Readable(t, t.rows[id], now) then Some(id) else None
  }

  function Recover(row: Row): Option<Session> {
    if row.status != Revoked || row.reason != Rotated then None else row.recovery
  }

  function NewRow(token: Id, user: Id, expiresAt: int): Row {
    Row(token, user, Active, Unset, expiresAt, None, None)
  }

  predicate Collides(t: Tables, s: Session) {
    s.accessToken in t.sessions || TokenTaken(t, s.refreshToken)
  }

  function Insert(t: Tables, user: Id, s: Session, expiresAt: int): Tables {
    t.(sessions := t.sessions[s.accessToken := user],
       rows := t.rows[t.nextId := NewRow(s.refreshToken, user, expiresAt)],
       nextId := t.nextId + 1)
  }

  datatype SwapResult = Swapped | AlreadyTaken | StorageError

  /** The transaction of a refresh call: revoke the row if it is still active, then insert its successor. */
  function Swap(t: Tables, id: nat, s: Session, ttls: Ttls, now: int): (Tables, SwapResult) {
    if id !in t.rows || t.rows[id].status != Active then (t, AlreadyTaken)
    else if Collides(t, s) then (t, StorageError)
    else
      var row := t.rows[id];
      var revoked := row.(status := Revoked, reason := Rotated, recovery := Some(s), recoveryExpiresAt := Some(now + ttls.recovery));
      (Insert(t.(rows := t.rows[id := revoked]), row.user, s, now + ttls.refresh), Swapped)
  }

  function ClearRecovery(rows: map<nat, Row>, user: Id): map<nat, Row> {
    map id | id in rows ::
      if rows[id].user == user && rows[id].recoveryExpiresAt.Some?
      then rows[id].(recovery := None, recoveryExpiresAt := None) else rows[id]
  }

  ghost function Logout(t: Tables, token: Id): Tables {
    match RowOf(t, token)
    case None => t
    case Some(id) =>
      var row := t.rows[id];
      var rows := if row.status == Active then t.rows[id := row.(status := Revoked, reason := Other)] else t.rows;
      t.(rows := ClearRecovery(rows, row.user))
  }

  function RevokeOthers(rows: map<nat, Row>, user: Id, keep: Option<Id>): map<nat, Row> {
    map id | id in rows ::
      if rows[id].user == user && rows[id].status == Active && keep != Some(rows[id].token)
      then rows[id].(status := Revoked, reason := Other) else rows[id]
  }

  /** A password change revokes the account's other refresh rows and clears its recoveries. */
  function ChangePassword(t: Tables, user: Id, keep: Option<Id>): Tables {
    t.(rows := ClearRecovery(RevokeOthers(t.rows, user, keep), user))
  }

  /** Disabling an account revokes all its refresh rows and clears its recoveries; enabling it brings nothing back. */
  function SetUser(t: Tables, user: Id, active: bool): Tables {
    var u := t.(users := t.users[user := active]);
    if active then u else ChangePassword(u, user, None)
  }

  ghost function Touch(t: Tables, token: Id, ttl: int, now: int): Tables {
    match RowOf(t, token)
    case None => t
    case Some(id) =>
      var row := t.rows[id];
      if row.status == Active && row.expiresAt > now && row.user in t.users && t.users[row.user]
      then t.(rows := t.rows[id := row.(expiresAt := now + ttl)]) else t
  }

  function Login(t: Tables, user: Id, s: Session, expiresAt: int): Tables {
    if Collides(t, s) then t else Insert(t, user, s, expiresAt)
  }

  // Calls in flight.

  datatype Phase =
    | Reading
    | Swapping(row: nat)
    | Rereading
    | Returned(result: Option<Session>)
    | Broken

  /** One refresh call: the token it was made with and the session it would issue. */
  datatype Call = Call(token: Id, draw: Session, phase: Phase)

  datatype System = System(tables: Tables, calls: map<Id, Call>)

  const START := System(Tables(map[], map[], map[], 0), map[])

  datatype Action =
    | Begin(call: Id, token: Id, draw: Session)
    | Advance(call: Id, ttls: Ttls)
    | DoLogin(user: Id, session: Session, ttl: int)
    | DoLogout(token: Id)
    | DoChangePassword(user: Id, keep: Option<Id>)
    | DoTouch(token: Id, ttl: int)
    | DoSetUser(user: Id, active: bool)

  ghost function NextPhase(t: Tables, c: Call, ttls: Ttls, now: int): (Tables, Phase) {
    match c.phase
    case Reading =>
      (match Find(t, c.token, now)
       case None => (t, Returned(None))
       case Some(id) => (t, if t.rows[id].status == Revoked then Returned(Recover(t.rows[id])) else Swapping(id)))
    case Swapping(id) =>
      var (u, r) := Swap(t, id, c.draw, ttls, now);
      (match r
       case Swapped => (u, Returned(Some(c.draw)))
       case AlreadyTaken => (u, Rereading)
       case StorageError => (u, Broken))
    case Rereading =>
      (match Find(t, c.token, now)
       case None => (t, Returned(None))
       case Some(id) => (t, Returned(Recover(t.rows[id]))))
    case Returned(_) => (t, c.phase)
    case Broken => (t, c.phase)
  }

  ghost function Act(s: System, a: Action, now: int): System {
    match a
    case Begin(c, token, draw) => if c in s.calls then s else s.(calls := s.calls[c := Call(token, draw, Reading)])
    case Advance(c, ttls) =>
      if c !in s.calls then s
      else
        var (t, phase) := NextPhase(s.tables, s.calls[c], ttls, now);
        System(t, s.calls[c := s.calls[c].(phase := phase)])
    case DoLogin(user, session, ttl) => s.(tables := Login(s.tables, user, session, now + ttl))
    case DoLogout(token) => s.(tables := Logout(s.tables, token))
    case DoChangePassword(user, keep) => s.(tables := ChangePassword(s.tables, user, keep))
    case DoTouch(token, ttl) => s.(tables := Touch(s.tables, token, ttl, now))
    case DoSetUser(user, active) => s.(tables := SetUser(s.tables, user, active))
  }

  datatype Timed = Timed(action: Action, now: int)

  ghost function At(run: seq<Timed>, i: nat): System
    requires i <= |run|
  {
    if i == 0 then START else Act(At(run, i - 1), run[i - 1].action, run[i - 1].now)
  }

  // What holds of every interleaving.

  ghost predicate TablesInv(t: Tables) {
    && (forall id :: id in t.rows ==> id < t.nextId)
    && (forall i, j :: i in t.rows && j in t.rows && t.rows[i].token == t.rows[j].token ==> i == j)
    && (forall id :: id in t.rows && t.rows[id].recovery.Some? ==> t.rows[id].status == Revoked && t.rows[id].recoveryExpiresAt.Some?)
  }

  /** The row `id` is spent, and the only session it can still give back is `s`. */
  ghost predicate Spent(t: Tables, id: nat, s: Session) {
    id in t.rows && t.rows[id].status == Revoked && (t.rows[id].recovery == None || t.rows[id].recovery == Some(s))
  }

  ghost predicate GaveBack(c: Call, s: Session) {
    c.phase == Returned(Some(s))
  }

  ghost predicate CallInv(t: Tables, c: Call) {
    && (c.phase.Swapping? ==> IsTokenRow(t, c.phase.row, c.token))
    && (c.phase.Returned? && c.phase.result.Some? ==> exists id :: IsTokenRow(t, id, c.token) && Spent(t, id, c.phase.result.value))
  }

  ghost predicate Agree(a: Call, b: Call) {
    forall x, y :: a.token == b.token && GaveBack(a, x) && GaveBack(b, y) ==> x == y
  }

  ghost predicate Inv(s: System) {
    && TablesInv(s.tables)
    && (forall c :: c in s.calls ==> CallInv(s.tables, s.calls[c]))
    && (forall c, d :: c in s.calls && d in s.calls ==> Agree(s.calls[c], s.calls[d]))
  }

  /** Rows are never removed or renamed; a revoked row stays revoked and its recovery only disappears. */
  ghost predicate RowsLast(t: Tables, u: Tables) {
    forall id :: id in t.rows ==>
      && id in u.rows && u.rows[id].token == t.rows[id].token && u.rows[id].user == t.rows[id].user
      && (t.rows[id].status == Revoked ==>
            u.rows[id].status == Revoked && u.rows[id].reason == t.rows[id].reason
            && (u.rows[id].recovery == t.rows[id].recovery || u.rows[id].recovery == None))
  }

  lemma RowsLastIsTransitive(t: Tables, u: Tables, v: Tables)
    requires RowsLast(t, u) && RowsLast(u, v)
    ensures RowsLast(t, v)
  {
  }

  lemma LastingKeepsCalls(t: Tables, u: Tables, c: Call)
    requires RowsLast(t, u) && CallInv(t, c)
    ensures CallInv(u, c)
  {
    if c.phase.Returned? && c.phase.result.Some? {
      var id :| IsTokenRow(t, id, c.token) && Spent(t, id, c.phase.result.value);
      assert IsTokenRow(u, id, c.token) && Spent(u, id, c.phase.result.value);
    }
  }

  lemma SwapKeepsTables(t: Tables, id: nat, s: Session, ttls: Ttls, now: int)
    requires TablesInv(t)
    ensures TablesInv(Swap(t, id, s, ttls, now).0) && RowsLast(t, Swap(t, id, s, ttls, now).0)
  {
  }

  lemma LoginKeepsTables(t: Tables, user: Id, s: Session, expiresAt: int)
    requires TablesInv(t)
    ensures TablesInv(Login(t, user, s, expiresAt)) && RowsLast(t, Login(t, user, s, expiresAt))
  {
  }

  lemma ClearKeepsTables(t: Tables, user: Id)
    requires TablesInv(t)
    ensures var u := t.(rows := ClearRecovery(t.rows, user)); TablesInv(u) && RowsLast(t, u)
  {
  }

  lemma LogoutKeepsTables(t: Tables, token: Id)
    requires TablesInv(t)
    ensures TablesInv(Logout(t, token)) && RowsLast(t, Logout(t, token))
  {
    var owner := RowOf(t, token);
    if owner.Some? {
      var row := t.rows[owner.value];
      var u := if row.status == Active then t.(rows := t.rows[owner.value := row.(status := Revoked, reason := Other)]) else t;
      assert TablesInv(u) && RowsLast(t, u);
      hide TablesInv, RowsLast;
      ClearKeepsTables(u, row.user);
      RowsLastIsTransitive(t, u, Logout(t, token));
    } else {
      Reflexive(t);
    }
  }

  lemma ChangePasswordKeepsTables(t: Tables, user: Id, keep: Option<Id>)
    requires TablesInv(t)
    ensures TablesInv(ChangePassword(t, user, keep)) && RowsLast(t, ChangePassword(t, user, keep))
  {
    hide ClearRecovery;
    var u := t.(rows := RevokeOthers(t.rows, user, keep));
    assert TablesInv(u) && RowsLast(t, u);
    hide TablesInv, RowsLast, RevokeOthers;
    ClearKeepsTables(u, user);
    RowsLastIsTransitive(t, u, ChangePassword(t, user, keep));
  }

  lemma SetUserKeepsTables(t: Tables, user: Id, active: bool)
    requires TablesInv(t)
    ensures TablesInv(SetUser(t, user, active)) && RowsLast(t, SetUser(t, user, active))
  {
    hide ChangePassword;
    var u := t.(users := t.users[user := active]);
    assert TablesInv(u) && RowsLast(t, u);
    hide TablesInv, RowsLast;
    ChangePasswordKeepsTables(u, user, None);
    RowsLastIsTransitive(t, u, ChangePassword(u, user, None));
  }

  lemma TouchKeepsTables(t: Tables, token: Id, ttl: int, now: int)
    requires TablesInv(t)
    ensures TablesInv(Touch(t, token, ttl, now)) && RowsLast(t, Touch(t, token, ttl, now))
  {
  }

  lemma AdvanceKeepsTables(t: Tables, c: Call, ttls: Ttls, now: int)
    requires TablesInv(t)
    ensures var u := NextPhase(t, c, ttls, now).0; TablesInv(u) && RowsLast(t, u)
  {
    hide Swap;
    if c.phase.Swapping? { SwapKeepsTables(t, c.phase.row, c.draw, ttls, now); }
  }

  lemma ActKeepsTables(s: System, a: Action, now: int)
    requires TablesInv(s.tables)
    ensures TablesInv(Act(s, a, now).tables) && RowsLast(s.tables, Act(s, a, now).tables)
  {
    hide NextPhase, Login, Logout, ChangePassword, SetUser, Touch;
    match a
    case Begin(_, _, _) =>
    case Advance(c, ttls) => if c in s.calls { AdvanceKeepsTables(s.tables, s.calls[c], ttls, now); }
    case DoLogin(user, session, ttl) => LoginKeepsTables(s.tables, user, session, now + ttl);
    case DoLogout(token) => LogoutKeepsTables(s.tables, token);
    case DoChangePassword(user, keep) => ChangePasswordKeepsTables(s.tables, user, keep);
    case DoTouch(token, ttl) => TouchKeepsTables(s.tables, token, ttl, now);
    case DoSetUser(user, active) => SetUserKeepsTables(s.tables, user, active);
  }

  /** A call that ends with a session leaves its row spent with that session, and every call that ended earlier had the same. */
  lemma AdvanceKeepsCall(t: Tables, c: Call, d: Call, ttls: Ttls, now: int)
    requires TablesInv(t) && CallInv(t, c) && CallInv(t, d) && Agree(c, d)
    ensures var (u, phase) := NextPhase(t, c, ttls, now);
            CallInv(u, c.(phase := phase)) && Agree(c.(phase := phase), d)
  {
    var (u, phase) := NextPhase(t, c, ttls, now);
    if phase.Returned? && phase.result.Some? && !c.phase.Returned? {
      var id := if c.phase.Swapping? then c.phase.row else Find(t, c.token, now).value;
      assert IsTokenRow(t, id, c.token);
      assert IsTokenRow(u, id, c.token) && Spent(u, id, phase.result.value);
      if d.token == c.token && d.phase.Returned? && d.phase.result.Some? {
        var other :| IsTokenRow(t, other, d.token) && Spent(t, other, d.phase.result.value);
        assert other == id;
      }
    }
  }

  lemma AdvanceKeepsInv(s: System, id: Id, ttls: Ttls, now: int)
    requires Inv(s) && id in s.calls
    ensures Inv(Act(s, Advance(id, ttls), now))
  {
    var next := Act(s, Advance(id, ttls), now);
    AdvanceKeepsTables(s.tables, s.calls[id], ttls, now);
    hide NextPhase, TablesInv, RowsLast, CallInv;
    forall c | c in next.calls ensures CallInv(next.tables, next.calls[c]) && Agree(next.calls[id], next.calls[c]) && Agree(next.calls[c], next.calls[id]) {
      AdvanceKeepsCall(s.tables, s.calls[id], s.calls[c], ttls, now);
      LastingKeepsCalls(s.tables, next.tables, s.calls[c]);
    }
  }

  lemma ActKeepsInv(s: System, a: Action, now: int)
    requires Inv(s)
    ensures Inv(Act(s, a, now))
  {
    var next := Act(s, a, now);
    if a.Advance? && a.call in s.calls {
      AdvanceKeepsInv(s, a.call, a.ttls, now);
    } else {
      ActKeepsTables(s, a, now);
      hide NextPhase, TablesInv, RowsLast, Login, Logout, ChangePassword, Touch;
      forall c | c in s.calls ensures CallInv(next.tables, s.calls[c]) {
        LastingKeepsCalls(s.tables, next.tables, s.calls[c]);
      }
    }
  }

  lemma {:induction false} Reachable(run: seq<Timed>, i: nat)
    requires i <= |run|
    ensures Inv(At(run, i))
  {
    hide Act, Inv;
    if i == 0 {
      StartInv();
    } else {
      Reachable(run, i - 1);
      ActKeepsInv(At(run, i - 1), run[i - 1].action, run[i - 1].now);
    }
  }

  lemma StartInv()
    ensures Inv(START)
  {
  }

  lemma {:induction false} History(run: seq<Timed>, i: nat, j: nat)
    requires i <= j <= |run|
    ensures RowsLast(At(run, i).tables, At(run, j).tables)
    decreases j
  {
    hide Act, Inv, RowsLast;
    if i == j {
      Reflexive(At(run, i).tables);
    } else {
      History(run, i, j - 1);
      Reachable(run, j - 1);
      assert TablesInv(At(run, j - 1).tables) by { InvParts(At(run, j - 1)); }
      hide TablesInv;
      ActKeepsTables(At(run, j - 1), run[j - 1].action, run[j - 1].now);
      RowsLastIsTransitive(At(run, i).tables, At(run, j - 1).tables, At(run, j).tables);
    }
  }

  lemma Reflexive(t: Tables)
    ensures RowsLast(t, t)
  {
  }

  lemma InvParts(s: System)
    requires Inv(s)
    ensures TablesInv(s.tables)
  {
  }

  // The theorems.

  /** Whatever the interleaving, all calls on one token that return a session return the same one. */
  lemma CallsAgree(run: seq<Timed>, i: nat, c: Id, d: Id, x: Session, y: Session)
    requires i <= |run| && c in At(run, i).calls && d in At(run, i).calls
    requires At(run, i).calls[c].token == At(run, i).calls[d].token
    requires GaveBack(At(run, i).calls[c], x) && GaveBack(At(run, i).calls[d], y)
    ensures x == y
  {
    hide At;
    Reachable(run, i);
    assert Agree(At(run, i).calls[c], At(run, i).calls[d]);
  }

  function ActiveRows(t: Tables, user: Id): set<nat> {
    set id | id in t.rows && t.rows[id].user == user && t.rows[id].status == Active
  }

  /** Revoking one row and adding a live one for the same account changes the live rows by just these two. */
  lemma ActiveRowsMove(t: Tables, u: Tables, id: nat, user: Id)
    requires id in t.rows && t.rows[id].status == Active && t.nextId !in t.rows && id != t.nextId
    requires u.rows.Keys == t.rows.Keys + {t.nextId}
    requires forall other :: other in t.rows && other != id ==> u.rows[other] == t.rows[other]
    requires u.rows[id].status == Revoked && u.rows[t.nextId].status == Active && u.rows[t.nextId].user == t.rows[id].user
    ensures ActiveRows(u, user) == if t.rows[id].user == user then ActiveRows(t, user) - {id} + {t.nextId} else ActiveRows(t, user)
  {
  }

  lemma Exchanged(before: set<nat>, gone: nat, successor: nat)
    requires gone in before && successor !in before
    ensures |before - {gone} + {successor}| == |before|
  {
  }

  /** A rotation moves one live row of the account to its successor: the number of live rows of every account is conserved. */
  lemma RotationConservesActive(t: Tables, id: nat, s: Session, ttls: Ttls, now: int, user: Id)
    requires TablesInv(t) && Swap(t, id, s, ttls, now).1 == Swapped
    ensures |ActiveRows(Swap(t, id, s, ttls, now).0, user)| == |ActiveRows(t, user)|
  {
    assert t.nextId !in t.rows;
    hide TablesInv, Collides, ActiveRows;
    ActiveRowsMove(t, Swap(t, id, s, ttls, now).0, id, user);
    if t.rows[id].user == user {
      ActiveRowsOf(t, user, id);
      Exchanged(ActiveRows(t, user), id, t.nextId);
    }
  }

  lemma ActiveRowsOf(t: Tables, user: Id, id: nat)
    ensures id in ActiveRows(t, user) <==> id in t.rows && t.rows[id].user == user && t.rows[id].status == Active
    ensures t.nextId !in t.rows ==> t.nextId !in ActiveRows(t, user)
  {
  }

  ghost predicate SwapsAt(run: seq<Timed>, i: nat, token: Id)
    requires i < |run|
  {
    var a := run[i].action;
    var s := At(run, i);
    && a.Advance? && a.call in s.calls && s.calls[a.call].token == token && s.calls[a.call].phase.Swapping?
    && Swap(s.tables, s.calls[a.call].phase.row, s.calls[a.call].draw, a.ttls, run[i].now).1 == Swapped
  }

  /** A token has at most one successor: among any number of racing calls one swap succeeds. */
  lemma TokenRotatesOnce(run: seq<Timed>, i: nat, j: nat, token: Id)
    requires i < j < |run| && SwapsAt(run, i, token)
    ensures !SwapsAt(run, j, token)
  {
    Reachable(run, i);
    Reachable(run, j);
    var c := At(run, i).calls[run[i].action.call];
    assert CallInv(At(run, i).tables, c);
    assert At(run, i + 1) == Act(At(run, i), run[i].action, run[i].now);
    var id := c.phase.row;
    assert At(run, i + 1).tables.rows[id].status == Revoked;
    History(run, i, j);
    History(run, i + 1, j);
    hide At;
    var a := run[j].action;
    if a.Advance? && a.call in At(run, j).calls && At(run, j).calls[a.call].token == token && At(run, j).calls[a.call].phase.Swapping? {
      assert CallInv(At(run, j).tables, At(run, j).calls[a.call]);
      assert At(run, j).calls[a.call].phase.row == id;
    }
  }

  lemma LogoutClears(t: Tables, token: Id, id: nat)
    requires TablesInv(t) && RowOf(t, token).Some? && id in t.rows
    requires t.rows[id].user == t.rows[RowOf(t, token).value].user
    requires t.rows[id].status == Revoked || t.rows[id].token == token
    ensures var u := Logout(t, token);
            id in u.rows && u.rows[id].status == Revoked && u.rows[id].recovery == None
  {
  }

  /**
   After a logout has committed, no later read recovers a rotation made before it: any call
   that reads, for the first or the second time, a row of the account that had been rotated
   by then, or the row that was logged out, returns nothing.
   */
  lemma LogoutForgetsRotations(run: seq<Timed>, i: nat, j: nat, id: nat, c: Call, ttls: Ttls, now: int)
    requires i < j <= |run| && run[i].action.DoLogout?
    requires var t := At(run, i).tables;
             var owner := RowOf(t, run[i].action.token);
             && owner.Some? && id in t.rows && t.rows[id].user == t.rows[owner.value].user
             && (t.rows[id].status == Revoked || t.rows[id].token == run[i].action.token)
             && c.token == t.rows[id].token
    requires c.phase == Reading || c.phase == Rereading
    ensures NextPhase(At(run, j).tables, c, ttls, now).1 == Returned(None)
  {
    Reachable(run, i);
    Reachable(run, j);
    assert At(run, i + 1).tables == Logout(At(run, i).tables, run[i].action.token);
    LogoutClears(At(run, i).tables, run[i].action.token, id);
    hide Logout;
    History(run, i, i + 1);
    History(run, i + 1, j);
    hide At;
  }

  /** A logout, password change or disabling of the account: what makes it forget its rotations. */
  ghost predicate Forgets(t: Tables, a: Action, user: Id) {
    || (a.DoLogout? && RowOf(t, a.token).Some? && t.rows[RowOf(t, a.token).value].user == user)
    || (a.DoChangePassword? && a.user == user)
    || (a.DoSetUser? && a.user == user && !a.active)
  }

  lemma SpentRowStays(s: System, a: Action, now: int, id: nat)
    requires TablesInv(s.tables) && id in s.tables.rows && s.tables.rows[id].status == Revoked
    requires !Forgets(s.tables, a, s.tables.rows[id].user)
    ensures id in Act(s, a, now).tables.rows && Act(s, a, now).tables.rows[id] == s.tables.rows[id]
  {
    hide Find;
    if a.DoLogout? {
      LogoutOfOthers(s.tables, a.token, id);
    }
  }

  lemma LogoutOfOthers(t: Tables, token: Id, id: nat)
    requires id in t.rows && !(RowOf(t, token).Some? && t.rows[RowOf(t, token).value].user == t.rows[id].user)
    ensures id in Logout(t, token).rows && Logout(t, token).rows[id] == t.rows[id]
  {
  }

  lemma ForgottenRow(s: System, a: Action, now: int, id: nat)
    requires TablesInv(s.tables) && id in s.tables.rows && s.tables.rows[id].status == Revoked
    requires Forgets(s.tables, a, s.tables.rows[id].user)
    ensures id in Act(s, a, now).tables.rows && Act(s, a, now).tables.rows[id].recovery == None
  {
    hide NextPhase, Login, Touch, Collides;
  }

  ghost predicate Forgotten(run: seq<Timed>, i: nat, j: nat, user: Id)
    requires i <= j <= |run|
  {
    exists k :: i <= k < j && Forgets(At(run, k).tables, run[k].action, user)
  }

  /** A spent row keeps its recovery until its account forgets, and has none from then on. */
  lemma {:induction false} SpentRowAt(run: seq<Timed>, i: nat, j: nat, id: nat)
    requires i <= j <= |run| && id in At(run, i).tables.rows && At(run, i).tables.rows[id].status == Revoked
    ensures id in At(run, j).tables.rows && At(run, j).tables.rows[id].status == Revoked
    ensures At(run, j).tables.rows[id].user == At(run, i).tables.rows[id].user && At(run, j).tables.rows[id].token == At(run, i).tables.rows[id].token
    ensures if Forgotten(run, i, j, At(run, i).tables.rows[id].user) then At(run, j).tables.rows[id].recovery == None
            else At(run, j).tables.rows[id] == At(run, i).tables.rows[id]
    decreases j
  {
    hide Act, Forgets, Inv;
    if i < j {
      var user := At(run, i).tables.rows[id].user;
      SpentRowAt(run, i, j - 1, id);
      Reachable(run, j - 1);
      InvParts(At(run, j - 1));
      ForgottenGrows(run, i, j - 1, user);
      ActKeepsTables(At(run, j - 1), run[j - 1].action, run[j - 1].now);
      if Forgets(At(run, j - 1).tables, run[j - 1].action, user) {
        ForgottenRow(At(run, j - 1), run[j - 1].action, run[j - 1].now, id);
      } else {
        SpentRowStays(At(run, j - 1), run[j - 1].action, run[j - 1].now, id);
      }
    }
  }

  lemma ForgottenGrows(run: seq<Timed>, i: nat, j: nat, user: Id)
    requires i <= j < |run|
    ensures Forgotten(run, i, j + 1, user) <==> Forgotten(run, i, j, user) || Forgets(At(run, j).tables, run[j].action, user)
  {
    hide Forgets, At;
  }

  /**
   Recovery: once a call has rotated a token, any other call on it that reads later gets the
   very session of that rotation exactly while the recovery time lasts and the account is
   active and has not logged out, changed its password or been disabled since, even if it was
   enabled again. Otherwise it gets nothing.
   */
  lemma LateCallsRecoverIff(run: seq<Timed>, i: nat, j: nat, token: Id, c: Call, ttls: Ttls, now: int)
    requires i < j <= |run| && SwapsAt(run, i, token)
    requires c.token == token && (c.phase == Reading || c.phase == Rereading)
    ensures var winner := At(run, i).calls[run[i].action.call];
      winner.phase.row in At(run, i).tables.rows
      && var user := At(run, i).tables.rows[winner.phase.row].user;
      NextPhase(At(run, j).tables, c, ttls, now).1 == Returned(
        if user in At(run, j).tables.users && At(run, j).tables.users[user]
           && !Forgotten(run, i + 1, j, user) && now < run[i].now + run[i].action.ttls.recovery
        then Some(winner.draw) else None)
  {
    hide Forgotten, Inv, At, TablesInv;
    Reachable(run, i);
    Reachable(run, j);
    SwapWrites(run, i, token);
    var winner := At(run, i).calls[run[i].action.call];
    var id := winner.phase.row;
    SpentRowAt(run, i + 1, j, id);
    InvParts(At(run, j));
    TokenFinds(At(run, j).tables, id, now);
  }

  lemma SwapWrites(run: seq<Timed>, i: nat, token: Id)
    requires i < |run| && SwapsAt(run, i, token) && Inv(At(run, i))
    ensures var winner := At(run, i).calls[run[i].action.call];
      var id := winner.phase.row;
      var rows := At(run, i + 1).tables.rows;
      && id in At(run, i).tables.rows && id in rows && rows[id].token == token && rows[id].user == At(run, i).tables.rows[id].user
      && rows[id].status == Revoked && rows[id].reason == Rotated && rows[id].recovery == Some(winner.draw)
      && rows[id].recoveryExpiresAt == Some(run[i].now + run[i].action.ttls.recovery)
  {
    assert At(run, i + 1) == Act(At(run, i), run[i].action, run[i].now);
    var winner := At(run, i).calls[run[i].action.call];
    assert CallInv(At(run, i).tables, winner);
    assert winner.phase.row < At(run, i).tables.nextId;
  }

  lemma TokenFinds(t: Tables, id: nat, now: int)
    requires TablesInv(t) && id in t.rows
    ensures Find(t, t.rows[id].token, now) == if Readable(t, t.rows[id], now) then Some(id) else None
  {
  }

  /** A call that nothing interrupts returns a session exactly for a live row, then its own draw, or for a rotation within its recovery time. */
  lemma UninterruptedIff(t: Tables, id: nat, draw: Session, ttls: Ttls, now: int, x: Session)
    requires TablesInv(t) && id in t.rows
    ensures Uninterrupted(t, t.rows[id].token, draw, ttls, now).1 == Returned(Some(x)) <==>
      && t.rows[id].user in t.users && t.users[t.rows[id].user]
      && (if t.rows[id].status == Active then now < t.rows[id].expiresAt && !Collides(t, draw) && x == draw
          else t.rows[id].reason == Rotated && t.rows[id].recovery == Some(x) && now < t.rows[id].recoveryExpiresAt.value)
  {
    TokenFinds(t, id, now);
    hide Find, Collides;
  }

  // The atomic accesses as the service performs them.

  class Database {
    var users: map<Id, bool>
    var sessions: map<Id, Id>
    var rows: map<nat, Row>
    var nextId: nat

    function View(): Tables
      reads this
    {
      Tables(users, sessions, rows, nextId)
    }

    /** The joined read: the row of the token if its account is active and it is live or recoverable. */
    method FindRefreshSession(token: Id, now: int) returns (found: Option<nat>)
      requires TablesInv(View())
      ensures found == Find(View(), token, now)
    {
      if exists id :: id in rows && rows[id].token == token {
        var id :| id in rows && rows[id].token == token;
        found := if Readable(View(), rows[id], now) then Some(id) else None;
      } else {
        found := None;
      }
    }

    method InsertSession(user: Id, s: Session, expiresAt: int)
      modifies this
      ensures View() == Insert(old(View()), user, s, expiresAt)
    {
      sessions := sessions[s.accessToken := user];
      rows := rows[nextId := NewRow(s.refreshToken, user, expiresAt)];
      nextId := nextId + 1;
    }

    /** Compare-and-swap on the status, two inserts, commit; rolled back when the swap finds nothing or an insert collides. */
    method SwapRefreshSession(id: nat, s: Session, ttls: Ttls, now: int) returns (r: SwapResult)
      requires TablesInv(View())
      modifies this
      ensures (View(), r) == Swap(old(View()), id, s, ttls, now) && TablesInv(View())
    {
      SwapKeepsTables(View(), id, s, ttls, now);
      var before := rows;
      if id in rows && rows[id].status == Active {
        rows := rows[id := rows[id].(status := Revoked, reason := Rotated, recovery := Some(s), recoveryExpiresAt := Some(now + ttls.recovery))];
      } else {
        return AlreadyTaken;
      }
      SameTokens(before, rows, s.refreshToken);
      if Collides(View(), s) {
        rows := before;
        return StorageError;
      }
      InsertSession(rows[id].user, s, now + ttls.refresh);
      return Swapped;
    }

    method RevokeRefreshSession(token: Id)
      requires TablesInv(View())
      modifies this
      ensures View() == Logout(old(View()), token) && TablesInv(View())
    {
      LogoutKeepsTables(View(), token);
      if exists id :: id in rows && rows[id].token == token {
        var id :| id in rows && rows[id].token == token;
        var user := rows[id].user;
        if rows[id].status == Active {
          rows := rows[id := rows[id].(status := Revoked, reason := Other)];
        }
        rows := ClearRecovery(rows, user);
      }
    }

    /** One call whose accesses nothing interrupts; its swap then never loses. */
    method RefreshSession(token: Id, draw: Session, ttls: Ttls, now: int) returns (result: Option<Session>, failed: bool)
      requires TablesInv(View())
      modifies this
      ensures TablesInv(View()) && RowsLast(old(View()), View())
      ensures (View(), if failed then Broken else Returned(result)) == Uninterrupted(old(View()), token, draw, ttls, now)
    {
      failed := false;
      Reflexive(View());
      var found := FindRefreshSession(token, now);
      if found.None? { return None, false; }
      var id := found.value;
      if rows[id].status == Revoked { return Recover(rows[id]), false; }
      SwapKeepsTables(View(), id, draw, ttls, now);
      var r := SwapRefreshSession(id, draw, ttls, now);
      assert r != AlreadyTaken;  // nothing ran since the read, so no second read is needed
      if r == Swapped {
        result := Some(draw);
      } else {
        result, failed := None, true;
      }
    }
  }

  /** The accesses of one call back to back. */
  ghost function Uninterrupted(t: Tables, token: Id, draw: Session, ttls: Ttls, now: int): (Tables, Phase) {
    var (u, phase) := NextPhase(t, Call(token, draw, Reading), ttls, now);
    if phase.Swapping? then NextPhase(u, Call(token, draw, phase), ttls, now) else (u, phase)
  }

  lemma SameTokens(a: map<nat, Row>, b: map<nat, Row>, token: Id)
    requires a.Keys == b.Keys && forall id :: id in a ==> b[id].token == a[id].token
    ensures (exists id :: id in a && a[id].token == token) <==> (exists id :: id in b && b[id].token == token)
  {
    if id :| id in a && a[id].token == token { assert b[id].token == token; }
    if id :| id in b && b[id].token == token { assert a[id].token == token; }
  }
}
