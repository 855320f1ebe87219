/**
 How long a browser session can be refreshed: what a login and a rotation open, exactly what
 ends it, and when a refresh of it succeeds.
 */
module BrowserLifetimes {
  import opened Wrappers
  import opened BrowserRefresh

  // What is opened.

  /** The call that advances at step `i` was about to swap row `id`. */
  ghost predicate SwappingAt(run: seq<Timed>, i: nat, id: nat) {
    && i < |run| && run[i].action.Advance? && run[i].action.call in At(run, i).calls
    && At(run, i).calls[run[i].action.call].phase == Swapping(id)
  }

  ghost function CallAt(run: seq<Timed>, i: nat, j: nat): Call
    requires i < |run| && j <= |run| && run[i].action.Advance? && run[i].action.call in At(run, j).calls
  {
    At(run, j).calls[run[i].action.call]
  }

  /** Step `i` is a swap of row `id` after which its call returns. */
  ghost predicate WinsAt(run: seq<Timed>, i: nat, id: nat) {
    && SwappingAt(run, i, id)
    && run[i].action.call in At(run, i + 1).calls && At(run, i + 1).calls[run[i].action.call].phase.Returned?
  }

  /** A token or access token of the session is in use. */
  predicate InUse(t: Tables, s: Session) {
    s.accessToken in t.sessions || exists id :: id in t.rows && t.rows[id].token == s.refreshToken
  }

  /** The tables have one new row, live for `user` until `expiresAt`, and one new access token; row `spent` aside, all rows are as before. */
  ghost predicate Opens(t: Tables, u: Tables, user: Id, s: Session, expiresAt: int, spent: Option<nat>) {
    && u.nextId == t.nextId + 1 && t.nextId !in t.rows && t.nextId in u.rows
    && u.rows.Keys == t.rows.Keys + {t.nextId}
    && var row := u.rows[t.nextId];
    && row.token == s.refreshToken && row.user == user && row.status == Active && row.expiresAt == expiresAt
    && row.recovery.None? && row.recoveryExpiresAt.None?
    && u.sessions == t.sessions[s.accessToken := user] && s.accessToken !in t.sessions
    && u.users == t.users
    && forall id :: id in t.rows && spent != Some(id) ==> u.rows[id] == t.rows[id]
  }

  lemma SwapOutcome(t: Tables, id: nat, s: Session, ttls: Ttls, now: int)
    requires TablesInv(t) && id in t.rows
    ensures var (u, r) := Swap(t, id, s, ttls, now);
      && (r == AlreadyTaken <==> t.rows[id].status != Active)
      && (r == StorageError <==> t.rows[id].status == Active && InUse(t, s))
      && (r != Swapped ==> u == t)
      && (r == Swapped ==> Opens(t, u, t.rows[id].user, s, now + ttls.refresh, Some(id)) && u.rows[id].status == Revoked)
  {
    assert t.nextId !in t.rows;
    hide TablesInv;
  }

  /**
   A swap that finds its row live and its draw unused opens a session of the same user for the
   refresh lifetime; one that finds the row taken reads again, one whose draw is in use breaks
   off, and neither touches the tables.
   */
  lemma SwapsOpen(run: seq<Timed>, i: nat, id: nat)
    requires SwappingAt(run, i, id)
    ensures run[i].action.call in At(run, i + 1).calls && id in At(run, i).tables.rows
    ensures var t, u, c, phase := At(run, i).tables, At(run, i + 1).tables, CallAt(run, i, i), CallAt(run, i, i + 1).phase;
      if t.rows[id].status != Active then phase == Rereading && u == t
      else if InUse(t, c.draw) then phase == Broken && u == t
      else phase == Returned(Some(c.draw)) && Opens(t, u, t.rows[id].user, c.draw, run[i].now + run[i].action.ttls.refresh, Some(id))
  {
    hide Swap, Opens, Inv, InUse;
    Reachable(run, i);
    InvParts(At(run, i));
    SwappedRowExists(At(run, i), run[i].action.call);
    var c := CallAt(run, i, i);
    SwapOutcome(At(run, i).tables, id, c.draw, run[i].action.ttls, run[i].now);
    assert At(run, i + 1) == Act(At(run, i), run[i].action, run[i].now);
    hide At;
  }

  lemma SwappedRowExists(s: System, c: Id)
    requires Inv(s) && c in s.calls && s.calls[c].phase.Swapping?
    ensures s.calls[c].phase.row in s.tables.rows && s.tables.rows[s.calls[c].phase.row].token == s.calls[c].token
  {
    hide TablesInv, Agree;
    assert CallInv(s.tables, s.calls[c]);
  }

  /** A login opens a session for its lifetime, unless its draw is in use. */
  lemma LoginsOpen(run: seq<Timed>, i: nat)
    requires i < |run| && run[i].action.DoLogin?
    ensures var t, u, a := At(run, i).tables, At(run, i + 1).tables, run[i].action;
      if InUse(t, a.session) then u == t else Opens(t, u, a.user, a.session, run[i].now + a.ttl, None)
  {
    Reachable(run, i);
    InvParts(At(run, i));
    assert At(run, i + 1) == Act(At(run, i), run[i].action, run[i].now);
    hide At, Inv;
    assert At(run, i).tables.nextId !in At(run, i).tables.rows;
    hide TablesInv;
  }

  // What ends a row.

  /** The action ends row `id`: its swap, its logout, a password change that does not keep it, or the disabling of its account. */
  ghost predicate Ends(s: System, a: Action, id: nat, next: System)
    requires id in s.tables.rows
  {
    var row := s.tables.rows[id];
    match a
    case Advance(c, _) => c in s.calls && s.calls[c].phase == Swapping(id) && c in next.calls && next.calls[c].phase.Returned?
    case DoLogout(token) => token == row.token
    case DoChangePassword(user, keep) => user == row.user && keep != Some(row.token)
    case DoSetUser(user, active) => user == row.user && !active
    case _ => false
  }

  /** The action is a use of row `id` that prolongs it. */
  predicate Prolongs(t: Tables, a: Action, id: nat, now: int)
    requires id in t.rows
  {
    a.DoTouch? && a.token == t.rows[id].token && now < t.rows[id].expiresAt && t.rows[id].user in t.users && t.users[t.rows[id].user]
  }

  /** What one step does to a live row. */
  ghost predicate LiveRowStep(s: System, a: Action, now: int, next: System, id: nat)
    requires id in s.tables.rows
  {
    && id in next.tables.rows
    && var row, after := s.tables.rows[id], next.tables.rows[id];
    && after.token == row.token && after.user == row.user
    && (after.status == Active <==> !Ends(s, a, id, next))
    && (after.status == Active ==> after.expiresAt == if Prolongs(s.tables, a, id, now) then now + a.ttl else row.expiresAt)
    && (after.status == Revoked ==> after.reason == if a.Advance? then Rotated else Other)
  }

  lemma AdvanceLiveRow(s: System, c: Id, ttls: Ttls, now: int, id: nat)
    requires TablesInv(s.tables) && id in s.tables.rows && s.tables.rows[id].status == Active
    ensures LiveRowStep(s, Advance(c, ttls), now, Act(s, Advance(c, ttls), now), id)
  {
    hide Find, Collides;
  }

  lemma LogoutLiveRow(t: Tables, token: Id, id: nat)
    requires TablesInv(t) && id in t.rows && t.rows[id].status == Active
    ensures var u := Logout(t, token);
      && id in u.rows && u.rows[id].token == t.rows[id].token && u.rows[id].user == t.rows[id].user
      && (u.rows[id].status == Active <==> token != t.rows[id].token)
      && (u.rows[id].status == Active ==> u.rows[id].expiresAt == t.rows[id].expiresAt)
      && (u.rows[id].status == Revoked ==> u.rows[id].reason == Other)
  {
  }

  lemma TouchLiveRow(t: Tables, token: Id, ttl: int, now: int, id: nat)
    requires TablesInv(t) && id in t.rows && t.rows[id].status == Active
    ensures var u := Touch(t, token, ttl, now);
      && id in u.rows && u.rows[id].status == Active && u.rows[id].token == t.rows[id].token && u.rows[id].user == t.rows[id].user
      && u.rows[id].expiresAt == if Prolongs(t, DoTouch(token, ttl), id, now) then now + ttl else t.rows[id].expiresAt
  {
  }

  lemma ActLiveRow(s: System, a: Action, now: int, id: nat)
    requires TablesInv(s.tables) && id in s.tables.rows && s.tables.rows[id].status == Active
    ensures LiveRowStep(s, a, now, Act(s, a, now), id)
  {
    hide NextPhase, Logout, Touch, Collides;
    match a
    case Advance(c, ttls) => AdvanceLiveRow(s, c, ttls, now, id);
    case DoLogout(token) => LogoutLiveRow(s.tables, token, id);
    case DoTouch(token, ttl) => TouchLiveRow(s.tables, token, ttl, now, id);
    case _ =>
  }

  ghost predicate Ended(run: seq<Timed>, i: nat, j: nat, id: nat)
    requires i <= j <= |run|
  {
    exists m :: i <= m < j && id in At(run, m).tables.rows && Ends(At(run, m), run[m].action, id, At(run, m + 1))
  }

  /** The expiry of row `id` after step `j`, given what it was after step `i`: that of the last use in between that prolonged it. */
  ghost function Expiry(run: seq<Timed>, i: nat, j: nat, id: nat, first: int): int
    requires i <= j <= |run|
  {
    if i == j then first
    else if id in At(run, j - 1).tables.rows && Prolongs(At(run, j - 1).tables, run[j - 1].action, id, run[j - 1].now)
    then run[j - 1].now + run[j - 1].action.ttl
    else Expiry(run, i, j - 1, id, first)
  }

  /** A row is live exactly until something ends it, and its expiry is the one it was opened with or the one its last use gave it. */
  lemma {:induction false} LiveRowAt(run: seq<Timed>, i: nat, j: nat, id: nat)
    requires i <= j <= |run| && id in At(run, i).tables.rows && At(run, i).tables.rows[id].status == Active
    ensures id in At(run, j).tables.rows
    ensures At(run, j).tables.rows[id].token == At(run, i).tables.rows[id].token && At(run, j).tables.rows[id].user == At(run, i).tables.rows[id].user
    ensures At(run, j).tables.rows[id].status == Active <==> !Ended(run, i, j, id)
    ensures !Ended(run, i, j, id) ==> At(run, j).tables.rows[id].expiresAt == Expiry(run, i, j, id, At(run, i).tables.rows[id].expiresAt)
    decreases j
  {
    hide At, Ended, Expiry, LiveRowStep;
    if i == j {
      NothingYet(run, i, id, At(run, i).tables.rows[id].expiresAt);
    } else {
      LiveRowAt(run, i, j - 1, id);
      EndedGrows(run, i, j - 1, id);
      if Ended(run, i, j - 1, id) {
        RevokedRowNext(run, j - 1, id);
      } else {
        LiveRowNext(run, j - 1, id);
        ExpiryGrows(run, i, j - 1, id, At(run, i).tables.rows[id].expiresAt);
        LiveRowParts(At(run, j - 1), run[j - 1].action, run[j - 1].now, At(run, j), id);
      }
    }
  }

  lemma NothingYet(run: seq<Timed>, i: nat, id: nat, first: int)
    requires i <= |run|
    ensures !Ended(run, i, i, id) && Expiry(run, i, i, id, first) == first
  {
  }

  lemma RevokedRowNext(run: seq<Timed>, i: nat, id: nat)
    requires i < |run| && id in At(run, i).tables.rows && At(run, i).tables.rows[id].status == Revoked
    ensures id in At(run, i + 1).tables.rows
    ensures var row, after := At(run, i).tables.rows[id], At(run, i + 1).tables.rows[id];
      after.status == Revoked && after.token == row.token && after.user == row.user
  {
    hide Act, Inv, TablesInv;
    Reachable(run, i);
    InvParts(At(run, i));
    ActKeepsTables(At(run, i), run[i].action, run[i].now);
    assert At(run, i + 1) == Act(At(run, i), run[i].action, run[i].now);
  }

  lemma LiveRowNext(run: seq<Timed>, i: nat, id: nat)
    requires i < |run| && id in At(run, i).tables.rows && At(run, i).tables.rows[id].status == Active
    ensures LiveRowStep(At(run, i), run[i].action, run[i].now, At(run, i + 1), id)
  {
    hide Act, Inv, TablesInv, LiveRowStep;
    Reachable(run, i);
    InvParts(At(run, i));
    ActLiveRow(At(run, i), run[i].action, run[i].now, id);
    assert At(run, i + 1) == Act(At(run, i), run[i].action, run[i].now);
  }

  lemma ExpiryGrows(run: seq<Timed>, i: nat, j: nat, id: nat, first: int)
    requires i <= j < |run| && id in At(run, j).tables.rows
    ensures Expiry(run, i, j + 1, id, first)
      == if Prolongs(At(run, j).tables, run[j].action, id, run[j].now) then run[j].now + run[j].action.ttl else Expiry(run, i, j, id, first)
  {
    hide At, Prolongs;
  }

  lemma LiveRowParts(s: System, a: Action, now: int, next: System, id: nat)
    requires id in s.tables.rows && LiveRowStep(s, a, now, next, id)
    ensures id in next.tables.rows && next.tables.rows[id].token == s.tables.rows[id].token && next.tables.rows[id].user == s.tables.rows[id].user
    ensures next.tables.rows[id].status == Active <==> !Ends(s, a, id, next)
    ensures next.tables.rows[id].status == Active ==>
      next.tables.rows[id].expiresAt == if Prolongs(s.tables, a, id, now) then now + a.ttl else s.tables.rows[id].expiresAt
  {
  }

  lemma EndedGrows(run: seq<Timed>, i: nat, j: nat, id: nat)
    requires i <= j < |run| && id in At(run, j).tables.rows
    ensures Ended(run, i, j + 1, id) <==> Ended(run, i, j, id) || Ends(At(run, j), run[j].action, id, At(run, j + 1))
  {
    hide Ends, At;
  }

  /** Row `id` is opened by step `i`, for `user`, by a login or as the successor in a rotation. */
  ghost predicate OpenedAt(run: seq<Timed>, i: nat, id: nat, user: Id, s: Session, expiresAt: int) {
    && i < |run| && id == At(run, i).tables.nextId
    && ((run[i].action.DoLogin? && !InUse(At(run, i).tables, run[i].action.session)
         && user == run[i].action.user && s == run[i].action.session && expiresAt == run[i].now + run[i].action.ttl)
        || (exists spent :: WinsAt(run, i, spent) && spent in At(run, i).tables.rows && user == At(run, i).tables.rows[spent].user
              && s == CallAt(run, i, i).draw && expiresAt == run[i].now + run[i].action.ttls.refresh))
  }

  lemma OpenedRow(run: seq<Timed>, i: nat, id: nat, user: Id, s: Session, expiresAt: int)
    requires OpenedAt(run, i, id, user, s, expiresAt)
    ensures var u := At(run, i + 1).tables;
      && id in u.rows && u.rows[id].token == s.refreshToken && u.rows[id].user == user && u.rows[id].status == Active && u.rows[id].expiresAt == expiresAt
      && s.accessToken in u.sessions && u.sessions[s.accessToken] == user
  {
    hide At, InUse;
    if run[i].action.DoLogin? {
      LoginsOpen(run, i);
    } else {
      var spent :| WinsAt(run, i, spent) && spent in At(run, i).tables.rows && user == At(run, i).tables.rows[spent].user
        && s == CallAt(run, i, i).draw && expiresAt == run[i].now + run[i].action.ttls.refresh;
      SwapsOpen(run, i, spent);
    }
  }

  /**
   The whole life of a refresh token, from the login or rotation that opened it: an undisturbed
   refresh with an unused draw succeeds exactly while nothing has ended it, it is not expired,
   counting the uses that prolonged it, and its account is active. Once it has ended, nothing
   new is ever issued for it.
   */
  lemma TokenRefreshesIff(run: seq<Timed>, i: nat, j: nat, id: nat, user: Id, s: Session, expiresAt: int, draw: Session, ttls: Ttls, now: int)
    requires OpenedAt(run, i, id, user, s, expiresAt) && i < j <= |run| && !InUse(At(run, j).tables, draw)
    ensures var t := At(run, j).tables;
      var (u, phase) := Uninterrupted(t, s.refreshToken, draw, ttls, now);
      if Ended(run, i + 1, j, id) then u == t
      else if user in t.users && t.users[user] && now < Expiry(run, i + 1, j, id, expiresAt) then phase == Returned(Some(draw))
      else u == t && phase == Returned(None)
  {
    hide Ended, Expiry, Inv, TablesInv, At, Opens, OpenedAt;
    OpenedRow(run, i, id, user, s, expiresAt);
    LiveRowAt(run, i + 1, j, id);
    Reachable(run, j);
    InvParts(At(run, j));
    RefreshOf(At(run, j).tables, id, draw, ttls, now);
  }

  lemma RefreshOf(t: Tables, id: nat, draw: Session, ttls: Ttls, now: int)
    requires TablesInv(t) && id in t.rows && !InUse(t, draw)
    ensures var (u, phase) := Uninterrupted(t, t.rows[id].token, draw, ttls, now);
      if t.rows[id].status != Active then u == t
      else if t.rows[id].user in t.users && t.users[t.rows[id].user] && now < t.rows[id].expiresAt then phase == Returned(Some(draw))
      else u == t && phase == Returned(None)
  {
    TokenFinds(t, id, now);
    hide TablesInv, Find;
  }

  /** Accounts are enabled and disabled by nothing else, and access tokens are handed out by logins and won swaps only. */
  lemma AccountsMove(run: seq<Timed>, i: nat)
    requires i < |run|
    ensures var t, u, a := At(run, i).tables, At(run, i + 1).tables, run[i].action;
      && u.users == (if a.DoSetUser? then t.users[a.user := a.active] else t.users)
      && (u.sessions != t.sessions ==> a.DoLogin? || exists id :: WinsAt(run, i, id))
  {
    assert At(run, i + 1) == Act(At(run, i), run[i].action, run[i].now);
    hide At, Inv, Find, Collides;
    var a := run[i].action;
    if a.Advance? && a.call in At(run, i).calls && At(run, i).calls[a.call].phase.Swapping? {
      var id := At(run, i).calls[a.call].phase.row;
      assert WinsAt(run, i, id) || At(run, i + 1).tables == At(run, i).tables;
    }
  }
}
