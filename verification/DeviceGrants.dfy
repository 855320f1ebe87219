/**
 The life of a grant, told by the table alone: when a start succeeds and what it stores,
 exactly which calls decide, consume, expire or remove a grant, and that a denial is final.
 */
module DeviceGrants {
  import opened Wrappers
  import opened Clock
  import opened DeviceTables
  import opened DeviceTransactions
  import opened DeviceInvariant
  import opened DeviceSteps
  import opened DeviceRows
  import opened DeviceRuns
  import opened DeviceConsent
  import opened DeviceAvailability
  import PollGate

  // Starts.

  /** The grants of a server that still wait for a decision or an exchange. */
  function WaitingGrants(s: Store, server: Id, now: int): set<Id> {
    set id | id in s.grants && s.grants[id].server == server && s.grants[id].Active() && now < Instant(s.grants[id].expiresAt)
  }

  predicate FamilyExists(s: Store, id: Id) {
    exists f :: f in s.families && s.families[f].authorization == id
  }

  /** Expired an hour ago or longer, and never exchanged. */
  predicate Obsolete(s: Store, id: Id, now: int) {
    id in s.grants && s.grants[id].status == Expired && s.grants[id].updatedAt + 3600 <= Seconds(now) && !FamilyExists(s, id)
  }

  /** A draw repeats the id or a code of a grant that is not about to be removed. */
  predicate Taken(s: Store, server: Id, d: GrantDraw, now: int) {
    exists id :: id in s.grants && !(s.grants[id].server == server && Obsolete(s, id, now))
      && (id == d.id || s.grants[id].deviceCode == d.deviceCode || s.grants[id].userCode == d.userCode)
  }

  ghost predicate FirstUntaken(s: Store, p: Policy, draws: seq<GrantDraw>, now: int, k: nat) {
    k < |draws| && k < 5 && !Taken(s, p.server, draws[k], now) && forall l :: 0 <= l < k ==> Taken(s, p.server, draws[l], now)
  }

  lemma ReadyWaits(s: Store, server: Id, now: int)
    ensures ActiveGrants(DropRetained(ExpireOverdue(s.grants, server, now), s.families, server, now), server) == WaitingGrants(s, server, now)
  {
    hide HasFamily, Seconds, Instant;
    forall id | id in s.grants ensures Instant(s.grants[id].expiresAt) <= now <==> s.grants[id].expiresAt <= Seconds(now) {
      StoredComparison(s.grants[id].expiresAt, now);
    }
  }

  lemma ReadyRow(s: Store, server: Id, now: int, id: Id)
    ensures var ready := DropRetained(ExpireOverdue(s.grants, server, now), s.families, server, now);
      && (id in ready <==> id in s.grants && !(s.grants[id].server == server && Obsolete(s, id, now)))
      && (id in ready ==>
            && ready[id].deviceCode == s.grants[id].deviceCode && ready[id].userCode == s.grants[id].userCode
            && ready[id].server == s.grants[id].server && ready[id].approvedUser == s.grants[id].approvedUser
            && ready[id].status ==
                 (if s.grants[id].server == server && s.grants[id].Active() && Instant(s.grants[id].expiresAt) <= now then Expired
                  else s.grants[id].status)
            && ready[id].updatedAt == if ready[id].status != s.grants[id].status then Seconds(now) else s.grants[id].updatedAt)
  {
    if id in s.grants { StoredComparison(s.grants[id].expiresAt, now); }
    hide Seconds, Instant;
  }

  lemma CollidesIsTaken(s: Store, server: Id, d: GrantDraw, now: int)
    ensures GrantCollides(DropRetained(ExpireOverdue(s.grants, server, now), s.families, server, now), d) <==> Taken(s, server, d, now)
  {
    hide DropRetained, ExpireOverdue, Obsolete;
    var ready := DropRetained(ExpireOverdue(s.grants, server, now), s.families, server, now);
    forall id ensures (id in ready <==> id in s.grants && !(s.grants[id].server == server && Obsolete(s, id, now)))
      && (id in ready ==> ready[id].deviceCode == s.grants[id].deviceCode && ready[id].userCode == s.grants[id].userCode)
    {
      ReadyRow(s, server, now, id);
    }
  }

  lemma {:induction false} FreeIsUntaken(s: Store, p: Policy, draws: seq<GrantDraw>, now: int, attempt: nat)
    requires attempt <= |draws| && attempt <= 5 && forall l :: 0 <= l < attempt ==> Taken(s, p.server, draws[l], now)
    ensures var d := FirstFree(DropRetained(ExpireOverdue(s.grants, p.server, now), s.families, p.server, now), draws, attempt);
      if d.Some? then exists k: nat :: FirstUntaken(s, p, draws, now, k) && d.value == draws[k]
      else forall k :: 0 <= k < |draws| && k < 5 ==> Taken(s, p.server, draws[k], now)
    decreases |draws| - attempt
  {
    hide GrantCollides, Taken, DropRetained, ExpireOverdue;
    if attempt < |draws| && attempt < 5 {
      CollidesIsTaken(s, p.server, draws[attempt], now);
      if Taken(s, p.server, draws[attempt], now) {
        FreeIsUntaken(s, p, draws, now, attempt + 1);
      } else {
        assert FirstUntaken(s, p, draws, now, attempt);
      }
    }
  }

  /** What a started grant is: everything as requested, open from now on for the authorization time of the policy. */
  ghost predicate Opened(t: Store, r: Outcome, d: GrantDraw, p: Policy, q: StartRequest, now: int) {
    && d.id in t.grants
    && var g := t.grants[d.id];
    && r == Started(d.id, g.deviceCode, g.userCode, now + p.authorizationTtl * 1_000_000_000)
    && g.deviceCode == d.deviceCode && g.userCode == d.userCode && g.challenge == q.challenge && g.installation == q.installation && g.server == p.server
    && g.status == Pending && g.approvedUser.None? && g.transaction.None? && g.result.Blank? && g.resultExpiresAt.None?
    && g.interval == p.pollInterval && g.nextPollAt == Seconds(now) && g.expiresAt == Seconds(now) + p.authorizationTtl
  }

  /** The first draw that is not taken opens the grant. */
  ghost predicate OpensFirst(s: Store, t: Store, r: Outcome, p: Policy, q: StartRequest, draws: seq<GrantDraw>, now: int) {
    exists k: nat :: FirstUntaken(s, p, draws, now, k) && Opened(t, r, draws[k], p, q, now)
  }

  lemma StartOutcome(s: Store, p: Policy, q: StartRequest, draws: seq<GrantDraw>, now: int)
    ensures var (t, r) := Start(s, p, q, draws, now);
      if !p.Valid() then t == s && r == Failed(InvalidRequest)
      else if |WaitingGrants(s, p.server, now)| >= 500 then r == Failed(SlowDown(60))
      else if forall k :: 0 <= k < |draws| && k < 5 ==> Taken(s, p.server, draws[k], now) then t == s && r == Failed(InvalidState)
      else OpensFirst(s, t, r, p, q, draws, now)
  {
    hide ActiveGrants, WaitingGrants, Taken, DropRetained, ExpireOverdue, FirstFree;
    ReadyWaits(s, p.server, now);
    FreeIsUntaken(s, p, draws, now, 0);
    CutCommutesWithSpan(now, p.authorizationTtl);
    var (t, r) := Start(s, p, q, draws, now);
    var free := FirstFree(DropRetained(ExpireOverdue(s.grants, p.server, now), s.families, p.server, now), draws, 0);
    if p.Valid() && |WaitingGrants(s, p.server, now)| < 500 && free.Some? {
      var k: nat :| FirstUntaken(s, p, draws, now, k) && free.value == draws[k];
      NewGrantIsOpen(t, r, draws[k], p, q, now);
    }
  }

  lemma NewGrantIsOpen(t: Store, r: Outcome, d: GrantDraw, p: Policy, q: StartRequest, now: int)
    requires d.id in t.grants && t.grants[d.id] == NewGrant(p, q, d, now)
    requires r == Started(d.id, d.deviceCode, d.userCode, now + Span(p.authorizationTtl))
    ensures Opened(t, r, d, p, q, now)
  {
    CutCommutesWithSpan(now, p.authorizationTtl);
  }

  /**
   A start succeeds exactly under a valid policy, with fewer than 500 grants of the server
   waiting and a new one among the first five draws; it takes the first such draw and opens
   the grant as requested. A full server asks for a minute's patience.
   */
  lemma StartIff(run: seq<Timed>, i: nat)
    requires i < |run| && run[i].call.CallStart?
    ensures var s, t, r := At(run, i), At(run, i + 1), OutcomeAt(run, i);
      var p, q, draws, now := run[i].call.policy, run[i].call.start, run[i].call.draws, run[i].now;
      if !p.Valid() then t == s && r == Failed(InvalidRequest)
      else if |WaitingGrants(s, p.server, now)| >= 500 then r == Failed(SlowDown(60))
      else if forall k :: 0 <= k < |draws| && k < 5 ==> Taken(s, p.server, draws[k], now) then t == s && r == Failed(InvalidState)
      else OpensFirst(s, t, r, p, q, draws, now)
  {
    hide Start, OpensFirst, Taken, WaitingGrants;
    var call, now := run[i].call, run[i].now;
    StartOutcome(At(run, i), call.policy, call.start, call.draws, now);
    assert At(run, i + 1) == Step(At(run, i), call, now).0;
    OpenedIsStarted(At(run, i), Start(At(run, i), call.policy, call.start, call.draws, now).0, OutcomeAt(run, i), call.policy, call.start, call.draws, now);
  }

  lemma OpenedIsStarted(s: Store, t: Store, r: Outcome, p: Policy, q: StartRequest, draws: seq<GrantDraw>, now: int)
    ensures OpensFirst(s, t, r, p, q, draws, now) ==> r.Started?
  {
  }

  // Every grant in every step.

  /** The call removes a grant that has lain expired or denied for an hour: a start on its server, or a sweep that picks it. */
  ghost predicate Removes(s: Store, call: Call, now: int, id: Id)
    requires id in s.grants
  {
    var g := s.grants[id];
    && g.updatedAt + 3600 <= Seconds(now) && !FamilyExists(s, id)
    && ((call.CallStart? && call.policy.Valid() && call.policy.server == g.server && g.status == Expired)
        || (call.CallSweepGrants? && id in call.grants && (g.status == Expired || g.status == Denied)))
  }

  predicate Decides(call: Call, r: Outcome, id: Id) {
    call.CallDecide? && call.grant == id && r == Done
  }

  predicate Consumes(call: Call, r: Outcome, g: Grant) {
    call.CallExchange? && call.exchange.deviceCode == g.deviceCode && r.Issued? && g.status != Consumed
  }

  /** The call looks at the expiry of grants, and this one is overdue. */
  predicate ExpiresNow(call: Call, r: Outcome, g: Grant, id: Id, now: int) {
    && g.Active() && Instant(g.expiresAt) <= now
    && match call
       case CallStart(p, _, _) => p.Valid() && p.server == g.server
       case CallExpireCode(code, server) => code == g.userCode && server == g.server && g.status == Pending
       case CallDecide(grant, _) => grant == id && r == Failed(AuthorizationExpired) && g.status == Pending
       case CallPoll(code, server) => code == g.deviceCode && server == g.server
       case CallExchange(_, _, q, _) => q.deviceCode == g.deviceCode && r == Failed(AuthorizationExpired)
       case CallSweepGrants(_) => true
       case _ => false
  }

  /** What becomes of grant `id` in one step. */
  ghost predicate Moves(s: Store, t: Store, call: Call, r: Outcome, now: int, id: Id)
    requires id in s.grants
  {
    var g := s.grants[id];
    if !ShouldCommit(r) then id in t.grants && t.grants[id] == g
    else if Removes(s, call, now, id) then id !in t.grants
    else
      && id in t.grants
      && t.grants[id].approvedUser == (if Decides(call, r, id) then call.approver else g.approvedUser)
      && t.grants[id].status ==
           (if Decides(call, r, id) then (if call.approver.Some? then Approved else Denied)
            else if Consumes(call, r, g) then Consumed
            else if ExpiresNow(call, r, g, id, now) then Expired
            else g.status)
      && (t.grants[id].status != g.status ==> t.grants[id].updatedAt == Seconds(now))
      && (g.status == Expired || g.status == Denied ==> t.grants[id].updatedAt == g.updatedAt)
  }

  lemma StartMoves(s: Store, p: Policy, q: StartRequest, draws: seq<GrantDraw>, now: int, id: Id)
    requires id in s.grants
    ensures var (t, r) := Start(s, p, q, draws, now);
      (r.Started? && r.authorization == id) || !ShouldCommit(r) || Moves(s, t, CallStart(p, q, draws), r, now, id)
  {
    hide ActiveGrants, DropRetained, ExpireOverdue, NewGrant, FirstFree, Seconds, Span, FamilyExists;
    ReadyRow(s, p.server, now, id);
  }

  lemma ExpireCodeMoves(s: Store, code: Id, server: Id, now: int, id: Id)
    requires id in s.grants && CodeInv(s.grants)
    ensures Moves(s, ExpireByCode(s, code, server, now), CallExpireCode(code, server), Done, now, id)
  {
    StoredComparison(s.grants[id].expiresAt, now);
    hide Seconds, Instant;
  }

  lemma DecideMoves(s: Store, grant: Id, approver: Option<Id>, now: int, id: Id)
    requires id in s.grants
    ensures var (t, r) := Decide(s, grant, approver, now); !ShouldCommit(r) || Moves(s, t, CallDecide(grant, approver), r, now, id)
  {
    StoredComparison(s.grants[id].expiresAt, now);
    hide Seconds, Instant, UserActive;
  }

  /** The gate of a grant moves neither statuses nor approvals; expiry moves one status. */
  lemma GateMoves(s: Store, grant: Id, now: int, id: Id)
    requires id in s.grants && grant in s.grants
    ensures var t := PassGate(s, grant, now).0; grant in t.grants && id in t.grants && t.grants[id].status == s.grants[id].status && t.grants[id].approvedUser == s.grants[id].approvedUser
    ensures var t := ExpireGrant(s, grant, now); id in t.grants && t.grants[id].approvedUser == s.grants[id].approvedUser
    ensures ExpireGrant(s, grant, now).grants[id].status == if id == grant && s.grants[id].Active() then Expired else s.grants[id].status
    ensures ExpireGrant(s, grant, now).grants[id].updatedAt == if id == grant && s.grants[id].Active() then Seconds(now) else s.grants[id].updatedAt
    ensures id != grant ==> PassGate(s, grant, now).0.grants[id] == s.grants[id]
  {
    hide Seconds, PollGate.Check;
  }

  lemma PollMoves(s: Store, code: Id, server: Id, now: int, id: Id)
    requires id in s.grants && CodeInv(s.grants)
    ensures var (t, r) := Poll(s, code, server, now); Moves(s, t, CallPoll(code, server), r, now, id)
  {
    hide PassGate, ExpireGrant, Seconds, Instant;
    var found := GrantOfCode(s.grants, code);
    if found.Some? { GateMoves(s, found.value, now, id); }
  }

  lemma ExchangeMoves(s: Store, key: Id, p: Policy, q: ExchangeRequest, draw: Draw, now: int, id: Id)
    requires id in s.grants && CodeInv(s.grants)
    ensures var (t, r) := Exchange(s, key, p, q, draw, now); !ShouldCommit(r) || Moves(s, t, CallExchange(key, p, q, draw), r, now, id)
  {
    hide ExchangeOpen, RecoverExchange, Seconds, CodeInv;
    var found := GrantOfCode(s.grants, q.deviceCode);
    if found.Some? {
      OnlyCode(s, found.value, id);
      if s.grants[found.value].status == Consumed {
        RecoveredMoves(s.grants[found.value], found.value, key, p, q, now);
      } else {
        OpenExchangeMoves(s, found.value, key, p, q, draw, now, id);
      }
    }
  }

  lemma OnlyCode(s: Store, a: Id, b: Id)
    requires CodeInv(s.grants) && a in s.grants && b in s.grants
    ensures s.grants[a].deviceCode == s.grants[b].deviceCode ==> a == b
  {
  }

  lemma RecoveredMoves(g: Grant, id: Id, key: Id, p: Policy, q: ExchangeRequest, now: int)
    ensures RecoverExchange(g, id, key, p, q, now) != Failed(AuthorizationExpired)
  {
  }

  lemma OpenExchangeMoves(s: Store, grant: Id, key: Id, p: Policy, q: ExchangeRequest, draw: Draw, now: int, id: Id)
    requires id in s.grants && grant in s.grants && s.grants[grant].deviceCode == q.deviceCode && s.grants[grant].status != Consumed
    requires s.grants[grant].deviceCode == s.grants[id].deviceCode ==> grant == id
    ensures var (t, r) := ExchangeOpen(s, grant, key, p, q, draw, now); !ShouldCommit(r) || Moves(s, t, CallExchange(key, p, q, draw), r, now, id)
  {
    hide PassGate, ExpireGrant, Seconds, Instant, IssueFirst;
    GateMoves(s, grant, now, id);
    IssueMoves(PassGate(s, grant, now).0, grant, key, p, q, draw, now, id);
  }

  lemma IssueMoves(s: Store, grant: Id, key: Id, p: Policy, q: ExchangeRequest, draw: Draw, now: int, id: Id)
    requires id in s.grants && grant in s.grants
    ensures var (t, r) := IssueFirst(s, grant, key, p, q, draw, now);
      && id in t.grants && t.grants[id].approvedUser == s.grants[id].approvedUser && r != Failed(AuthorizationExpired) && r != Done
      && t.grants[id].status == (if id == grant && r.Issued? then Consumed else s.grants[id].status)
      && t.grants[id].updatedAt == if id == grant && r.Issued? then Seconds(now) else s.grants[id].updatedAt
  {
    hide FirstCollides, DeviceOf, Seconds, Span, UserActive;
  }

  lemma SweepMoves(s: Store, call: Call, now: int, id: Id)
    requires id in s.grants && (call.CallSweepGrants? || call.CallSweepResults?)
    ensures Moves(s, Transact(s, call, now).0, call, Swept, now, id)
  {
    StoredComparison(s.grants[id].expiresAt, now);
    hide Instant, Seconds;
  }

  lemma TransactMoves(s: Store, call: Call, now: int, id: Id)
    requires CodeInv(s.grants) && id in s.grants
    ensures var (t, r) := Transact(s, call, now); (r.Started? && r.authorization == id) || !ShouldCommit(r) || Moves(s, t, call, r, now, id)
  {
    hide CodeInv, Start, ExpireByCode, Review, Decide, Poll, Exchange, Rotate, Authenticate, Revoke, ChangePassword, SweepResults, SweepGrants, Removes;
    match call
    case CallStart(p, q, draws) => StartMoves(s, p, q, draws, now, id);
    case CallExpireCode(code, server) => ExpireCodeMoves(s, code, server, now, id);
    case CallReview(code, server) => StaysPut(s, s, call, Review(s, code, server), now, id);
    case CallDecide(grant, approver) => DecideMoves(s, grant, approver, now, id);
    case CallPoll(code, server) => PollMoves(s, code, server, now, id);
    case CallExchange(key, p, q, draw) => ExchangeMoves(s, key, p, q, draw, now, id);
    case CallSweepGrants(_) => SweepMoves(s, call, now, id);
    case CallSweepResults => SweepMoves(s, call, now, id);
    case _ =>
      QuietCallsLeaveGrants(s, call, now);
      StaysPut(s, Transact(s, call, now).0, call, Transact(s, call, now).1, now, id);
  }

  lemma StaysPut(s: Store, t: Store, call: Call, r: Outcome, now: int, id: Id)
    requires id in s.grants && t.grants == s.grants
    requires !call.CallStart? && !call.CallExpireCode? && !call.CallDecide? && !call.CallPoll? && !call.CallExchange? && !call.CallSweepGrants?
    ensures Moves(s, t, call, r, now, id)
  {
    hide Instant, Seconds, FamilyExists;
  }

  /** In every step of every run, a grant is decided, consumed, expired or removed by exactly these calls. */
  lemma GrantMoves(run: seq<Timed>, i: nat, id: Id)
    requires i < |run| && id in At(run, i).grants && !Restarts(run, i, id)
    ensures Moves(At(run, i), At(run, i + 1), run[i].call, OutcomeAt(run, i), run[i].now, id)
  {
    hide Inv, Transact, CodeInv, Removes, ExpiresNow;
    Reachable(run, i);
    InvParts(At(run, i));
    TransactMoves(At(run, i), run[i].call, run[i].now, id);
    assert At(run, i + 1) == Step(At(run, i), run[i].call, run[i].now).0;
  }

  /** What a decision leaves stays decided that way, while the grant is there and its id is not drawn anew. */
  lemma {:induction false} DecisionStands(run: seq<Timed>, i: nat, j: nat, id: Id)
    requires i < j <= |run| && run[i].call.CallDecide? && run[i].call.grant == id && OutcomeAt(run, i) == Done
    requires id in At(run, j).grants && forall k :: i <= k < j ==> !Restarts(run, k, id)
    ensures At(run, j).grants[id].approvedUser == run[i].call.approver
    ensures if run[i].call.approver.Some? then At(run, j).grants[id].status in {Approved, Consumed, Expired}
            else At(run, j).grants[id].status == Denied
    decreases j
  {
    hide At, Step, Removes, SameRequest, OutcomeAt;
    RequestPersists(run, j - 1, j, id);
    assert !Restarts(run, j - 1, id);
    GrantMoves(run, j - 1, id);
    if i < j - 1 {
      DecisionStands(run, i, j - 1, id);
      if run[j - 1].call.CallDecide? && run[j - 1].call.grant == id { DecisionIsFinal(run, i, j - 1, id); }
      if Consumes(run[j - 1].call, OutcomeAt(run, j - 1), At(run, j - 1).grants[id]) { OnlyApprovedIsConsumed(run, j - 1, id); }
    }
  }

  lemma OnlyApprovedIsConsumed(run: seq<Timed>, i: nat, id: Id)
    requires i < |run| && id in At(run, i).grants && run[i].call.CallExchange? && Consumes(run[i].call, OutcomeAt(run, i), At(run, i).grants[id])
    ensures At(run, i).grants[id].status == Approved
  {
    hide Inv, At, Exchange, Insertable;
    Reachable(run, i);
    var call := run[i].call;
    FirstExchangeIff(At(run, i), id, call.key, call.policy, call.exchange, call.draw, run[i].now);
  }

  /** A denial is final: every poll of the grant reports it, every review and every exchange is refused. */
  lemma DenialIsFinal(run: seq<Timed>, i: nat, j: nat, id: Id)
    requires i < j < |run| && run[i].call == CallDecide(id, None) && OutcomeAt(run, i) == Done
    requires id in At(run, j).grants && forall k :: i <= k < j ==> !Restarts(run, k, id)
    ensures var g, call, r := At(run, j).grants[id], run[j].call, OutcomeAt(run, j);
      && (call == CallPoll(g.deviceCode, g.server) ==> r == Polled(Denied))
      && (call == CallReview(g.userCode, g.server) ==> r == Failed(AuthorizationDenied))
      && (call.CallExchange? && call.exchange.deviceCode == g.deviceCode ==> !r.Issued?)
  {
    hide Inv, At, Exchange, Insertable;
    DecisionStands(run, i, j, id);
    Reachable(run, j);
    var call := run[j].call;
    assert CodeInv(At(run, j).grants) by { InvParts(At(run, j)); }
    if call.CallExchange? && call.exchange.deviceCode == At(run, j).grants[id].deviceCode {
      FirstExchangeIff(At(run, j), id, call.key, call.policy, call.exchange, call.draw, run[j].now);
    }
  }

  ghost predicate DeniedBefore(run: seq<Timed>, i: nat, id: Id) {
    exists k :: 0 <= k < i && k < |run| && run[k].call == CallDecide(id, None) && OutcomeAt(run, k) == Done
  }

  /** Nobody is told of a denial that did not happen. */
  lemma {:induction false} DeniedWasDenied(run: seq<Timed>, i: nat, id: Id)
    requires i <= |run| && id in At(run, i).grants && At(run, i).grants[id].status == Denied
    ensures DeniedBefore(run, i, id)
  {
    hide Step, Removes, SameRequest, Requests, SettlesBy;
    if i > 0 {
      GrantsAreAccounted(run, i - 1, id);
      StepComes(At(run, i - 1), run[i - 1].call, run[i - 1].now, id, 0);
      if Restarts(run, i - 1, id) {
        StartedIsPending(run, i - 1, id);
      } else {
        NoRequest(run, i - 1, id, At(run, i).grants[id]);
        GrantMoves(run, i - 1, id);
        hide At;
        if At(run, i - 1).grants[id].status == Denied { DeniedWasDenied(run, i - 1, id); }
      }
    }
  }

  lemma StartedIsPending(run: seq<Timed>, i: nat, id: Id)
    requires i < |run| && Restarts(run, i, id)
    ensures id in At(run, i + 1).grants && At(run, i + 1).grants[id].status == Pending
  {
    hide At, Taken, WaitingGrants, FirstUntaken, Step;
    OnlyStartsStart(At(run, i), run[i].call, run[i].now);
    StartIff(run, i);
  }

  lemma OnlyStartsStart(s: Store, call: Call, now: int)
    ensures Step(s, call, now).1.Started? ==> call.CallStart?
  {
    hide Start, Rotate, Exchange, PassGate, ExpireGrant;
    match call
    case CallExchange(key, p, q, draw) => ExchangeStartsNothing(s, key, p, q, draw, now);
    case CallRotate(key, p, q, draw) => RotateStartsNothing(s, key, p, q, draw, now);
    case _ =>
  }

  lemma ExchangeStartsNothing(s: Store, key: Id, p: Policy, q: ExchangeRequest, draw: Draw, now: int)
    ensures !Exchange(s, key, p, q, draw, now).1.Started?
  {
    hide PassGate, ExpireGrant, FirstCollides, FirstCredentials;
  }

  lemma RotateStartsNothing(s: Store, key: Id, p: Policy, q: RotateRequest, draw: Draw, now: int)
    ensures !Rotate(s, key, p, q, draw, now).1.Started?
  {
    hide Minted, NextCredentials, CondemnRotation;
  }

  predicate Closed(g: Grant) {
    g.status == Expired || g.status == Denied
  }

  /** A grant that expires or is denied stays on record, just so, for an hour from then. */
  lemma {:induction false} KeptForAnHour(run: seq<Timed>, i: nat, j: nat, id: Id)
    requires i < j <= |run| && id in At(run, i).grants && !Closed(At(run, i).grants[id])
    requires id in At(run, i + 1).grants && Closed(At(run, i + 1).grants[id])
    requires forall k :: i <= k < j ==> !Restarts(run, k, id) && Seconds(run[k].now) < Seconds(run[i].now) + 3600
    ensures id in At(run, j).grants && At(run, j).grants[id].status == At(run, i + 1).grants[id].status
    ensures At(run, j).grants[id].updatedAt == Seconds(run[i].now)
    decreases j
  {
    hide At, Step, OutcomeAt, Seconds, FamilyExists;
    assert !Restarts(run, j - 1, id);
    if i == j - 1 {
      GrantMoves(run, i, id);
    } else {
      KeptForAnHour(run, i, j - 1, id);
      GrantMoves(run, j - 1, id);
      ClosedStays(run, j - 1, id);
    }
  }

  lemma ClosedStays(run: seq<Timed>, i: nat, id: Id)
    requires i < |run| && id in At(run, i).grants && Closed(At(run, i).grants[id])
    ensures !Decides(run[i].call, OutcomeAt(run, i), id) && !Consumes(run[i].call, OutcomeAt(run, i), At(run, i).grants[id])
  {
    hide At, Decide, Exchange;
    if Consumes(run[i].call, OutcomeAt(run, i), At(run, i).grants[id]) { OnlyApprovedIsConsumed(run, i, id); }
    if run[i].call.CallDecide? { DecideIff(At(run, i), run[i].call.grant, run[i].call.approver, run[i].now); }
  }

  // What polls and exchanges are told.

  /** The grant of this code at this server. */
  ghost predicate Names(s: Store, code: Id, server: Id, id: Id) {
    id in s.grants && s.grants[id].deviceCode == code && s.grants[id].server == server
  }

  /** A poll of a closed grant tells its status, one of an overdue grant that it has expired, one of no grant that the code is wrong. */
  lemma PollsTell(run: seq<Timed>, i: nat, id: Id)
    requires i < |run| && run[i].call.CallPoll?
    ensures var s, t, r, call, now := At(run, i), At(run, i + 1), OutcomeAt(run, i), run[i].call, run[i].now;
      && ((forall x :: !Names(s, call.deviceCode, call.server, x)) ==> r == Failed(InvalidDeviceCode) && t == s)
      && (Names(s, call.deviceCode, call.server, id) && !s.grants[id].Active() ==> r == Polled(s.grants[id].status) && t == s)
      && (Names(s, call.deviceCode, call.server, id) && s.grants[id].Active() && Instant(s.grants[id].expiresAt) <= now ==> r == Failed(AuthorizationExpired))
  {
    hide Inv, Poll, ExpireGrant, Instant, At;
    Reachable(run, i);
    assert CodeInv(At(run, i).grants) by { InvParts(At(run, i)); }
    PollOutcome(At(run, i), run[i].call.deviceCode, run[i].call.server, run[i].now, id);
    NextStore(run, i);
  }

  lemma NextStore(run: seq<Timed>, i: nat)
    requires i < |run|
    ensures At(run, i + 1) == Step(At(run, i), run[i].call, run[i].now).0
  {
    hide Step;
  }

  lemma PollOutcome(s: Store, code: Id, server: Id, now: int, id: Id)
    requires CodeInv(s.grants)
    ensures var (t, r) := Poll(s, code, server, now);
      && ((forall x :: !Names(s, code, server, x)) ==> r == Failed(InvalidDeviceCode) && t == s)
      && (Names(s, code, server, id) && !s.grants[id].Active() ==> r == Polled(s.grants[id].status) && t == s)
      && (Names(s, code, server, id) && s.grants[id].Active() && Instant(s.grants[id].expiresAt) <= now ==> r == Failed(AuthorizationExpired))
  {
    hide PassGate, ExpireGrant, Instant;
    var found := GrantOfCode(s.grants, code);
    if found.Some? && s.grants[found.value].server == server { assert Names(s, code, server, found.value); }
  }

  /** A consumed grant hands its credentials out again exactly for its verifier, its transaction, its key and in its time; else it says what is wrong. */
  lemma ConsumedExchangeIff(run: seq<Timed>, i: nat, id: Id)
    requires i < |run| && run[i].call.CallExchange? && run[i].call.policy.Valid()
    requires Names(At(run, i), run[i].call.exchange.deviceCode, run[i].call.policy.server, id) && At(run, i).grants[id].status == Consumed
    ensures var g, q, r := At(run, i).grants[id], run[i].call.exchange, OutcomeAt(run, i);
      && At(run, i + 1) == At(run, i) && g.resultExpiresAt.Some?
      && r == (if g.challenge != S256(q.verifier) then Failed(InvalidCodeVerifier)
               else if g.transaction != Some(q.transaction) then Failed(ExchangeTransactionMismatch)
               else if g.result.Blank? || Instant(g.resultExpiresAt.value) <= run[i].now then Failed(IdempotencyExpired)
               else if g.result.key != run[i].call.key then Failed(CryptoFailure)
               else Issued(g.result.plaintext))
  {
    hide Inv, ExchangeOpen, Instant, At, Describes;
    Reachable(run, i);
    assert CodeInv(At(run, i).grants) && GrantInv(At(run, i)) by { InvParts(At(run, i)); }
    NextStore(run, i);
    assert GrantShape(At(run, i), id) && ExchangeResult(At(run, i), id);
    hide GrantInv, GrantShape;
  }

  /** An exchange of an open grant that is refused is told the truth: about its verifier, the decision, the time, or the account. */
  lemma ExchangeRefusalsAreTrue(run: seq<Timed>, i: nat, id: Id)
    requires i < |run| && run[i].call.CallExchange? && OutcomeAt(run, i).Failed?
    requires Names(At(run, i), run[i].call.exchange.deviceCode, run[i].call.policy.server, id) && At(run, i).grants[id].status != Consumed
    ensures var s, g, q, e := At(run, i), At(run, i).grants[id], run[i].call.exchange, OutcomeAt(run, i).error;
      && (e == InvalidCodeVerifier <==> run[i].call.policy.Valid() && g.challenge != S256(q.verifier))
      && (e == AuthorizationDenied ==> g.status == Denied)
      && (e == AuthorizationExpired ==> g.status == Expired || Instant(g.expiresAt) <= run[i].now)
      && (e.AuthorizationPending? ==> g.status == Pending && e.retryAfter == g.interval)
      && (e == UserInactive ==> g.status == Approved && g.approvedUser.Some? && !UserActive(s, g.approvedUser.value))
      && (e.SlowDown? ==> g.Active() && Instant(g.nextPollAt) > run[i].now)
  {
    hide Inv, Instant, At, Exchange;
    Reachable(run, i);
    assert CodeInv(At(run, i).grants) by { InvParts(At(run, i)); }
    var call := run[i].call;
    ExchangeRefusal(At(run, i), id, call.key, call.policy, call.exchange, call.draw, run[i].now);
  }

  lemma ExchangeRefusal(s: Store, id: Id, key: Id, p: Policy, q: ExchangeRequest, draw: Draw, now: int)
    requires CodeInv(s.grants) && Names(s, q.deviceCode, p.server, id) && s.grants[id].status != Consumed
    requires Exchange(s, key, p, q, draw, now).1.Failed?
    ensures var g, e := s.grants[id], Exchange(s, key, p, q, draw, now).1.error;
      && (e == InvalidCodeVerifier <==> p.Valid() && g.challenge != S256(q.verifier))
      && (e == AuthorizationDenied ==> g.status == Denied)
      && (e == AuthorizationExpired ==> g.status == Expired || Instant(g.expiresAt) <= now)
      && (e.AuthorizationPending? ==> g.status == Pending && e.retryAfter == g.interval)
      && (e == UserInactive ==> g.status == Approved && g.approvedUser.Some? && !UserActive(s, g.approvedUser.value))
      && (e.SlowDown? ==> g.Active() && Instant(g.nextPollAt) > now)
  {
    hide PassGate, ExpireGrant, Instant, FirstCollides, DeviceOf, FirstCredentials;
    GateRow(s, id, now);
    GateAdmits(s, id, now);
    StoredComparison(s.grants[id].nextPollAt, now);
    hide Seconds;
  }

  lemma GateRow(s: Store, id: Id, now: int)
    requires id in s.grants
    ensures var t := PassGate(s, id, now).0;
      && t.users == s.users && id in t.grants && t.grants[id].approvedUser == s.grants[id].approvedUser
      && t.grants[id].status == s.grants[id].status && t.grants[id].installation == s.grants[id].installation
    ensures !PassGate(s, id, now).1.SwapLost?
  {
    StoredComparison(s.grants[id].nextPollAt, now);
  }

  // Stored results.

  /** A consumed grant only ever loses its stored result, to the sweep, when its time is over. */
  ghost predicate ResultMoves(g: Grant, h: Grant, call: Call, now: int) {
    if call.CallSweepResults? && g.result.Sealed? && g.resultExpiresAt.Some? && g.resultExpiresAt.value <= Seconds(now)
    then h == g.(result := Blank, updatedAt := Seconds(now)) else h == g
  }

  lemma TransactResults(s: Store, call: Call, now: int, id: Id)
    requires id in s.grants && s.grants[id].status == Consumed
    ensures var t := Transact(s, call, now).0; id in t.grants && ResultMoves(s.grants[id], t.grants[id], call, now)
    ensures call.CallSweepResults? ==> ShouldCommit(Transact(s, call, now).1)
  {
    hide Start, ExpireByCode, Review, Decide, Poll, Exchange, Rotate, Authenticate, Revoke, ChangePassword, SweepGrants, Seconds;
    match call
    case CallStart(p, q, draws) => StartKeeps(s, p, q, draws, now, id);
    case CallExpireCode(code, server) => ReviewKeeps(s, code, server, now, id);
    case CallReview(_, _) =>
    case CallDecide(grant, approver) => DecideKeeps(s, grant, approver, now, id);
    case CallPoll(code, server) => PollKeeps(s, code, server, now, id);
    case CallExchange(key, p, q, draw) => ExchangeKeeps(s, key, p, q, draw, now, id);
    case CallSweepResults =>
    case CallSweepGrants(ids) => SweepKeepsConsumed(s, ids, now, id);
    case _ => QuietCallsLeaveGrants(s, call, now);
  }

  lemma SweepKeepsConsumed(s: Store, ids: set<Id>, now: int, id: Id)
    requires id in s.grants && s.grants[id].status == Consumed
    ensures var t := SweepGrants(s, ids, now); id in t.grants && t.grants[id] == s.grants[id]
  {
    hide HasFamily, Seconds;
  }

  /** In every step of every run, exactly the result sweep takes stored results, and exactly those that have run out. */
  lemma ResultsMove(run: seq<Timed>, i: nat, id: Id)
    requires i < |run| && id in At(run, i).grants && At(run, i).grants[id].status == Consumed
    ensures id in At(run, i + 1).grants && ResultMoves(At(run, i).grants[id], At(run, i + 1).grants[id], run[i].call, run[i].now)
  {
    hide At, Transact;
    TransactResults(At(run, i), run[i].call, run[i].now, id);
    NextStore(run, i);
  }
}
