/**
 Consent: behind every credential stands a request, a proof of possession, and the approval
 of the very user it speaks for.
 */
module DeviceConsent {
  import opened Wrappers
  import opened Clock
  import opened DeviceTables
  import opened DeviceTransactions
  import opened DeviceInvariant
  import opened DeviceSteps
  import opened DeviceRows
  import opened DeviceRuns
  import PollGate

  // Where grants come from, step by step.

  predicate IsSettled(g: Grant) {
    g.status == Approved || g.status == Consumed
  }

  predicate SameRequest(g: Grant, h: Grant) {
    && g.deviceCode == h.deviceCode && g.userCode == h.userCode && g.challenge == h.challenge
    && g.server == h.server && g.installation == h.installation && g.interval == h.interval && g.expiresAt == h.expiresAt
  }

  /** A start request that was answered with this grant. */
  ghost predicate Requests(call: Call, r: Outcome, id: Id, g: Grant) {
    && call.CallStart? && r.Started? && r.authorization == id && r.deviceCode == g.deviceCode && r.userCode == g.userCode
    && call.start.challenge == g.challenge && call.start.installation == g.installation && call.policy.server == g.server
    && call.policy.Valid() && call.policy.pollInterval == g.interval
  }

  ghost predicate Approves(call: Call, r: Outcome, id: Id, user: Id) {
    call == CallDecide(id, Some(user)) && r == Done
  }

  /** How a grant came to be settled: it was already, by the same user, or it was approved just now. */
  ghost predicate SettlesBy(g: Grant, h: Grant, call: Call, r: Outcome, id: Id) {
    IsSettled(h) ==>
      && h.approvedUser.Some?
      && ((IsSettled(g) && g.approvedUser == h.approvedUser) || Approves(call, r, id, h.approvedUser.value))
  }

  /** A grant after a step was requested by it, or is the same request as before. */
  ghost predicate Comes(before: map<Id, Grant>, after: map<Id, Grant>, call: Call, r: Outcome, id: Id) {
    id in after ==>
      || (Requests(call, r, id, after[id]) && !IsSettled(after[id]))
      || (id in before && SameRequest(before[id], after[id]) && SettlesBy(before[id], after[id], call, r, id))
  }

  /** A family after a step was there before with the same user and grant, or belongs to a grant that its user approved. */
  ghost predicate FamilyComes(s: Store, t: Store, f: Id) {
    f in t.families ==>
      var h := t.families[f];
      || (f in s.families && s.families[f].user == h.user && s.families[f].authorization == h.authorization)
      || (h.authorization in t.grants && t.grants[h.authorization].status == Consumed && t.grants[h.authorization].approvedUser == Some(h.user))
  }

  predicate UserKnown(grants: map<Id, Grant>, id: Id) {
    id in grants && IsSettled(grants[id]) ==> grants[id].approvedUser.Some?
  }

  /** Clearing the way for a new grant only expires and drops old ones. */
  ghost predicate Survives(before: map<Id, Grant>, after: map<Id, Grant>, id: Id) {
    id in after ==>
      && id in before && SameRequest(before[id], after[id]) && after[id].approvedUser == before[id].approvedUser
      && (IsSettled(after[id]) ==> IsSettled(before[id]))
  }

  lemma ReadySurvives(grants: map<Id, Grant>, families: map<Id, Family>, server: Id, now: int, id: Id)
    ensures Survives(grants, DropRetained(ExpireOverdue(grants, server, now), families, server, now), id)
  {
    hide HasFamily;
  }

  lemma StartComes(s: Store, p: Policy, q: StartRequest, draws: seq<GrantDraw>, now: int, id: Id)
    requires UserKnown(s.grants, id)
    ensures var (t, r) := Start(s, p, q, draws, now); Comes(s.grants, t.grants, CallStart(p, q, draws), r, id) && t.families == s.families
  {
    hide FirstFree, ActiveGrants, HasFamily, DropRetained, ExpireOverdue;
    ReadySurvives(s.grants, s.families, p.server, now, id);
  }

  lemma ExpireByCodeComes(s: Store, code: Id, server: Id, now: int, id: Id)
    requires UserKnown(s.grants, id)
    ensures var t := ExpireByCode(s, code, server, now); Comes(s.grants, t.grants, CallExpireCode(code, server), Done, id) && t.families == s.families
  {
    hide Seconds;
  }

  lemma DecideComes(s: Store, grant: Id, approver: Option<Id>, now: int, id: Id)
    requires UserKnown(s.grants, id)
    ensures var (t, r) := Decide(s, grant, approver, now); Comes(s.grants, t.grants, CallDecide(grant, approver), r, id) && t.families == s.families
  {
  }

  /** The gate and the expiry of a grant leave requests and approvals alone. */
  ghost predicate Untouched(before: map<Id, Grant>, after: map<Id, Grant>, id: Id) {
    if id in before then id in after && SameRequest(before[id], after[id]) && after[id].approvedUser == before[id].approvedUser
      && (IsSettled(after[id]) ==> IsSettled(before[id]))
    else id !in after
  }

  lemma OneUntouched(before: map<Id, Grant>, grant: Id, g: Grant, id: Id)
    requires grant in before && SameRequest(before[grant], g) && g.approvedUser == before[grant].approvedUser
    requires IsSettled(g) ==> IsSettled(before[grant])
    ensures Untouched(before, before[grant := g], id) && Untouched(before, before, id)
  {
  }

  lemma GateComes(s: Store, grant: Id, now: int, id: Id)
    requires grant in s.grants
    ensures var t := PassGate(s, grant, now).0; grant in t.grants && Untouched(s.grants, t.grants, id) && t.families == s.families
    ensures var t := PassGate(s, grant, now).0; t.grants[grant].status == s.grants[grant].status
    ensures var t := ExpireGrant(s, grant, now); Untouched(s.grants, t.grants, id) && t.families == s.families
  {
    hide Seconds, PollGate.Check, Untouched;
    var g := s.grants[grant];
    OneUntouched(s.grants, grant, g.(status := Expired, updatedAt := Seconds(now)), id);
    OneUntouched(s.grants, grant, g.(nextPollAt := PollGate.Check(g.nextPollAt, g.interval, now).1, updatedAt := Seconds(now)), id);
  }

  lemma PollComes(s: Store, code: Id, server: Id, now: int, id: Id)
    requires UserKnown(s.grants, id)
    ensures var (t, r) := Poll(s, code, server, now); Comes(s.grants, t.grants, CallPoll(code, server), r, id) && t.families == s.families
  {
    hide PassGate, ExpireGrant, Seconds;
    var found := GrantOfCode(s.grants, code);
    if found.Some? { GateComes(s, found.value, now, id); }
  }

  lemma ExchangeComes(s: Store, key: Id, p: Policy, q: ExchangeRequest, draw: Draw, now: int, id: Id, f: Id)
    requires UserKnown(s.grants, id)
    ensures var (t, r) := Exchange(s, key, p, q, draw, now); Comes(s.grants, t.grants, CallExchange(key, p, q, draw), r, id) && FamilyComes(s, t, f)
  {
    hide ExchangeOpen, RecoverExchange;
    var code := GrantOfCode(s.grants, q.deviceCode);
    if code.Some? && s.grants[code.value].status != Consumed {
      OpenExchangeComes(s, code.value, key, p, q, draw, now, id, f);
    }
  }

  lemma OpenExchangeComes(s: Store, grant: Id, key: Id, p: Policy, q: ExchangeRequest, draw: Draw, now: int, id: Id, f: Id)
    requires UserKnown(s.grants, id) && grant in s.grants && s.grants[grant].status != Consumed
    ensures var (t, r) := ExchangeOpen(s, grant, key, p, q, draw, now);
      Comes(s.grants, t.grants, CallExchange(key, p, q, draw), r, id) && FamilyComes(s, t, f)
  {
    hide IssueFirst, ExpireGrant, PassGate, Instant;
    GateComes(s, grant, now, id);
    IssueComes(PassGate(s, grant, now).0, grant, key, p, q, draw, now, id, f);
  }

  lemma IssueComes(s: Store, grant: Id, key: Id, p: Policy, q: ExchangeRequest, draw: Draw, now: int, id: Id, f: Id)
    requires grant in s.grants
    ensures var (t, r) := IssueFirst(s, grant, key, p, q, draw, now);
      && FamilyComes(s, t, f) && (id in t.grants <==> id in s.grants)
      && (id in s.grants ==> SameRequest(s.grants[id], t.grants[id]) && t.grants[id].approvedUser == s.grants[id].approvedUser)
      && (id in s.grants && id != grant ==> t.grants[id] == s.grants[id])
  {
  }

  lemma QuietCallsCome(s: Store, call: Call, now: int, id: Id, f: Id)
    requires UserKnown(s.grants, id)
    requires call.CallRotate? || call.CallAuthenticate? || call.CallRevoke? || call.CallChangePassword? || call.CallSetUser?
      || call.CallRevokeDevice? || call.CallSweepRotations? || call.CallSweepResults? || call.CallSweepGrants?
    ensures var (t, r) := Transact(s, call, now); Comes(s.grants, t.grants, call, r, id) && FamilyComes(s, t, f)
  {
    hide NextCredentials, SlotCollides, TransactionUsed, HasFamily, Rotate, Authenticate;
    match call
    case CallRotate(key, p, q, draw) => RotateLeavesGrants(s, key, p, q, draw, now, f);
    case CallAuthenticate(token, server) => AuthenticateLeavesGrants(s, token, server, now);
    case _ =>
  }

  lemma RotateLeavesGrants(s: Store, key: Id, p: Policy, q: RotateRequest, draw: Draw, now: int, f: Id)
    ensures var t := Rotate(s, key, p, q, draw, now).0; t.grants == s.grants && FamilyComes(s, t, f)
  {
    hide NextCredentials, SlotCollides, TransactionUsed;
  }

  lemma AuthenticateLeavesGrants(s: Store, token: Id, server: Id, now: int)
    ensures var t := Authenticate(s, token, server, now).0; t.grants == s.grants && t.families == s.families
  {
  }

  lemma StepComes(s: Store, call: Call, now: int, id: Id, f: Id)
    requires UserKnown(s.grants, id)
    ensures var (t, r) := Step(s, call, now); Comes(s.grants, t.grants, call, r, id) && FamilyComes(s, t, f)
  {
    hide Start, ExpireByCode, Review, Decide, Poll, Exchange, Rotate, Authenticate, Revoke, ChangePassword, SweepRotations, SweepResults, SweepGrants;
    match call
    case CallStart(p, q, draws) => StartComes(s, p, q, draws, now, id);
    case CallExpireCode(code, server) => ExpireByCodeComes(s, code, server, now, id);
    case CallReview(_, _) =>
    case CallDecide(grant, approver) => DecideComes(s, grant, approver, now, id);
    case CallPoll(code, server) => PollComes(s, code, server, now, id);
    case CallExchange(key, p, q, draw) => ExchangeComes(s, key, p, q, draw, now, id, f);
    case _ => QuietCallsCome(s, call, now, id, f);
  }

  // Over whole runs.

  /** Step `k` of the run answered the request that grant `g` stands for. */
  ghost predicate RequestedAt(run: seq<Timed>, k: nat, id: Id, g: Grant) {
    k < |run| && Requests(run[k].call, OutcomeAt(run, k), id, g)
  }

  /** In step `j`, `user`, then an active account, approved the grant. */
  ghost predicate ApprovedAt(run: seq<Timed>, j: nat, id: Id, user: Id) {
    j < |run| && Approves(run[j].call, OutcomeAt(run, j), id, user) && UserActive(At(run, j), user)
  }

  ghost predicate HasRequest(run: seq<Timed>, i: nat, id: Id, g: Grant) {
    exists k :: 0 <= k < i && RequestedAt(run, k, id, g)
  }

  /** The grant was requested and then approved by `user`, both in the first `i` steps. */
  ghost predicate HasConsent(run: seq<Timed>, i: nat, id: Id, g: Grant, user: Id) {
    exists k, j :: 0 <= k < j < i && RequestedAt(run, k, id, g) && ApprovedAt(run, j, id, user)
  }

  ghost predicate Accounted(run: seq<Timed>, i: nat, id: Id)
    requires i <= |run|
  {
    id in At(run, i).grants ==>
      var g := At(run, i).grants[id];
      && HasRequest(run, i, id, g)
      && (IsSettled(g) ==> g.approvedUser.Some? && HasConsent(run, i, id, g, g.approvedUser.value))
  }

  ghost predicate Owned(s: Store, f: Id) {
    f in s.families ==>
      var id := s.families[f].authorization;
      id in s.grants && s.grants[id].status == Consumed && s.grants[id].approvedUser == Some(s.families[f].user)
  }

  lemma RequestLasts(run: seq<Timed>, i: nat, id: Id, g: Grant, h: Grant)
    requires HasRequest(run, i, id, g) && SameRequest(g, h)
    ensures HasRequest(run, i + 1, id, h)
  {
    hide OutcomeAt;
    var k :| 0 <= k < i && RequestedAt(run, k, id, g);
    assert RequestedAt(run, k, id, h);
  }

  lemma ConsentLasts(run: seq<Timed>, i: nat, id: Id, g: Grant, h: Grant, user: Id)
    requires HasConsent(run, i, id, g, user) && SameRequest(g, h)
    ensures HasConsent(run, i + 1, id, h, user)
  {
    hide OutcomeAt, ApprovedAt;
    var k, j :| 0 <= k < j < i && RequestedAt(run, k, id, g) && ApprovedAt(run, j, id, user);
    assert RequestedAt(run, k, id, h);
  }

  lemma ConsentGiven(run: seq<Timed>, i: nat, id: Id, g: Grant, h: Grant, user: Id)
    requires i < |run| && HasRequest(run, i, id, g) && SameRequest(g, h) && Approves(run[i].call, OutcomeAt(run, i), id, user)
    ensures HasConsent(run, i + 1, id, h, user)
  {
    DecideIff(At(run, i), id, Some(user), run[i].now);
    hide At, Decide;
    var k :| 0 <= k < i && RequestedAt(run, k, id, g);
    assert RequestedAt(run, k, id, h) && ApprovedAt(run, i, id, user);
  }

  lemma {:induction false} GrantsAreAccounted(run: seq<Timed>, i: nat, id: Id)
    requires i <= |run|
    ensures Accounted(run, i, id)
    decreases i
  {
    hide Step, HasRequest, HasConsent, SameRequest, Inv;
    if i > 0 {
      var s, t := At(run, i - 1), At(run, i);
      GrantsAreAccounted(run, i - 1, id);
      StepComes(s, run[i - 1].call, run[i - 1].now, id, 0);
      hide At, Requests, Approves;
      if id in t.grants {
        if Requests(run[i - 1].call, OutcomeAt(run, i - 1), id, t.grants[id]) && !IsSettled(t.grants[id]) {
          RequestMade(run, i - 1, id, t.grants[id]);
        } else {
          var g, h := s.grants[id], t.grants[id];
          RequestLasts(run, i - 1, id, g, h);
          if IsSettled(h) {
            if IsSettled(g) && g.approvedUser == h.approvedUser {
              ConsentLasts(run, i - 1, id, g, h, h.approvedUser.value);
            } else {
              ConsentGiven(run, i - 1, id, g, h, h.approvedUser.value);
            }
          }
        }
      }
    }
  }

  lemma RequestMade(run: seq<Timed>, i: nat, id: Id, g: Grant)
    requires i < |run| && Requests(run[i].call, OutcomeAt(run, i), id, g)
    ensures HasRequest(run, i + 1, id, g)
  {
    assert RequestedAt(run, i, id, g);
  }

  lemma {:induction false} FamiliesAreOwned(run: seq<Timed>, i: nat, f: Id)
    requires i <= |run|
    ensures Owned(At(run, i), f)
  {
    hide Step, Inv;
    if i > 0 {
      var s, t := At(run, i - 1), At(run, i);
      FamiliesAreOwned(run, i - 1, f);
      Reachable(run, i - 1);
      GrantsAreAccounted(run, i - 1, 0);
      StepIsSound(s, run[i - 1].call, run[i - 1].now);
      assert UserKnown(s.grants, 0);
      StepComes(s, run[i - 1].call, run[i - 1].now, 0, f);
      hide At, Comes;
    }
  }

  lemma FamilyHasConsent(run: seq<Timed>, i: nat, f: Id)
    requires i <= |run| && f in At(run, i).families
    ensures Consented(run, i, f, At(run, i).families[f].user)
  {
    hide HasConsent, HasRequest, At;
    FamiliesAreOwned(run, i, f);
    GrantsAreAccounted(run, i, At(run, i).families[f].authorization);
  }

  /** Family `f` speaks for `user`, and comes from a consumed grant that was requested and that this user then approved. */
  ghost predicate Consented(run: seq<Timed>, i: nat, f: Id, user: Id)
    requires i <= |run|
  {
    && f in At(run, i).families && At(run, i).families[f].user == user
    && var id := At(run, i).families[f].authorization;
       id in At(run, i).grants && At(run, i).grants[id].status == Consumed && HasConsent(run, i, id, At(run, i).grants[id], user)
  }

  /**
   Consent. Whoever the service hands credentials to, by exchange, rotation or recovery, or
   recognises by an access token, is the user who approved the grant of that family, as an
   active account, after the grant was requested.
   */
  lemma EveryEntryWasApproved(run: seq<Timed>, i: nat)
    requires i < |run|
    ensures OutcomeAt(run, i).Issued? ==> Consented(run, i + 1, OutcomeAt(run, i).credentials.family, OutcomeAt(run, i).credentials.user)
    ensures OutcomeAt(run, i).Authenticated? ==> Consented(run, i + 1, OutcomeAt(run, i).identity.family, OutcomeAt(run, i).identity.user)
  {
    hide Consented, Step, Inv;
    Reachable(run, i);
    StepIsSound(At(run, i), run[i].call, run[i].now);
    assert At(run, i + 1) == Step(At(run, i), run[i].call, run[i].now).0;
    if OutcomeAt(run, i).Issued? {
      CredentialsMatchRows(run, i, i + 1);
      FamilyHasConsent(run, i + 1, OutcomeAt(run, i).credentials.family);
      SpeaksFor(run, i + 1, OutcomeAt(run, i).credentials.family);
    } else if OutcomeAt(run, i).Authenticated? {
      EntersAlive(At(run, i), run[i].call, run[i].now);
      FamilyHasConsent(run, i + 1, OutcomeAt(run, i).identity.family);
      SpeaksFor(run, i + 1, OutcomeAt(run, i).identity.family);
    }
  }

  lemma SpeaksFor(run: seq<Timed>, i: nat, f: Id)
    requires i <= |run| && f in At(run, i).families
    ensures forall user :: Consented(run, i, f, user) ==> user == At(run, i).families[f].user
  {
    hide HasConsent, At;
  }

  ghost predicate Alive(s: Store, f: Id) {
    && f in s.families && s.families[f].active && UserActive(s, s.families[f].user)
    && s.families[f].device in s.devices && s.devices[s.families[f].device].active
  }

  ghost predicate SpokenFor(s: Store, a: Identity, server: Id) {
    && Alive(s, a.family) && s.families[a.family].user == a.user && s.families[a.family].device == a.device
    && s.families[a.family].server == server == a.server
  }

  ghost predicate RotatedFor(s: Store, c: Credentials, q: RotateRequest) {
    && Alive(s, c.family) && s.families[c.family].user == c.user
    && c.device == q.device == s.families[c.family].device && c.server == q.server == s.families[c.family].server
    && c.generation == q.generation + 1
  }

  /**
   Nobody gets past a dead account, device or family: an access token is recognised, and a
   refresh token rotated or recovered, only while all three are active, and only for the
   device, server and generation that were asked for.
   */
  lemma EntersAlive(s: Store, call: Call, now: int)
    requires Inv(s)
    ensures Step(s, call, now).1.Authenticated? ==> call.CallAuthenticate? && SpokenFor(s, Step(s, call, now).1.identity, call.server)
    ensures Step(s, call, now).1.Issued? && call.CallRotate? ==> RotatedFor(s, Step(s, call, now).1.credentials, call.rotate)
  {
    hide Inv, Rotate, Exchange, Start, Review, Poll;
    match call
    case CallRotate(key, p, q, draw) =>
      RotatesAlive(s, key, p, q, draw, now);
      RotateIsNoLogin(s, key, p, q, draw, now);
    case CallExchange(key, p, q, draw) => ExchangeIsNoLogin(s, key, p, q, draw, now);
    case CallStart(p, q, draws) => StartIsNoLogin(s, p, q, draws, now);
    case CallReview(code, server) => OthersAreNoLogin(s, code, server, now);
    case CallPoll(code, server) => OthersAreNoLogin(s, code, server, now);
    case _ =>
  }

  lemma RotatesAlive(s: Store, key: Id, p: Policy, q: RotateRequest, draw: Draw, now: int)
    requires Inv(s)
    ensures var r := Rotate(s, key, p, q, draw, now).1; r.Issued? ==> RotatedFor(s, r.credentials, q)
  {
    hide Inv, CondemnRotation, Minted, SlotCollides, TransactionUsed;
    assert ResultInv(s) by { InvParts(s); }
    var k := SlotOfRefresh(s.refreshes, q.token);
    if k.Some? && k.value in s.rotations {
      assert RotationResult(s, k.value, s.rotations[k.value].result);
    }
  }

  /**
   Proof of possession. An exchange that succeeds, also one that recovers an earlier result,
   presents the verifier of the challenge that the family's own grant was requested with.
   */
  lemma ExchangeProvesPossession(run: seq<Timed>, i: nat)
    requires i < |run| && run[i].call.CallExchange? && OutcomeAt(run, i).Issued?
    ensures var q := run[i].call.exchange;
      var t := At(run, i + 1);
      var f := OutcomeAt(run, i).credentials.family;
      && f in t.families && t.families[f].authorization in t.grants
      && var g := t.grants[t.families[f].authorization];
         g.challenge == S256(q.verifier) && g.deviceCode == q.deviceCode && g.server == run[i].call.policy.server
  {
    hide Inv, Exchange, Step, Recorded;
    var s, call := At(run, i), run[i].call;
    Reachable(run, i);
    StepIsExchange(s, call, run[i].now);
    assert At(run, i + 1) == Step(s, call, run[i].now).0;
    var f := OutcomeAt(run, i).credentials.family;
    CredentialsMatchRows(run, i, i + 1);
    FamilyHasConsent(run, i + 1, f);
    GrantsAreAccounted(run, i, At(run, i + 1).families[f].authorization);
    StepComes(s, call, run[i].now, At(run, i + 1).families[f].authorization, f);
    VerifierMatches(s, call, run[i].now, At(run, i + 1).families[f].authorization);
    hide At, HasConsent, HasRequest;
  }

  lemma VerifierMatches(s: Store, call: Call, now: int, id: Id)
    requires Inv(s) && call.CallExchange? && Step(s, call, now).1.Issued?
    requires id in s.grants && s.grants[id].deviceCode == call.exchange.deviceCode
    ensures s.grants[id].challenge == S256(call.exchange.verifier) && s.grants[id].server == call.policy.server
  {
    hide Inv, ExchangeOpen, RecoverExchange;
    assert CodeInv(s.grants) by { InvParts(s); }
  }

  ghost predicate ConsentTo(run: seq<Timed>, i: nat, id: Id, user: Id, code: Id, server: Id)
    requires i <= |run|
  {
    && id in At(run, i).grants && At(run, i).grants[id].deviceCode == code && At(run, i).grants[id].server == server
    && HasConsent(run, i, id, At(run, i).grants[id], user)
  }

  /** A poll that reports an approved or consumed grant speaks of one that was requested, and then approved by an active account. */
  lemma PolledApprovalIsConsent(run: seq<Timed>, i: nat)
    requires i < |run| && run[i].call.CallPoll? && OutcomeAt(run, i).Polled?
    requires OutcomeAt(run, i).status == Approved || OutcomeAt(run, i).status == Consumed
    ensures exists id, user :: ConsentTo(run, i, id, user, run[i].call.deviceCode, run[i].call.server)
  {
    hide HasConsent, HasRequest, PassGate, ExpireGrant, At, Instant;
    var id := GrantOfCode(At(run, i).grants, run[i].call.deviceCode).value;
    GrantsAreAccounted(run, i, id);
    assert ConsentTo(run, i, id, At(run, i).grants[id].approvedUser.value, run[i].call.deviceCode, run[i].call.server);
  }

  /** A grant that no start in between has drawn anew is the same request throughout. */
  lemma {:induction false} RequestPersists(run: seq<Timed>, i: nat, j: nat, id: Id)
    requires i <= j <= |run| && id in At(run, j).grants && forall k :: i <= k < j ==> !Restarts(run, k, id)
    ensures id in At(run, i).grants && SameRequest(At(run, i).grants[id], At(run, j).grants[id])
    decreases j
  {
    hide Step, SameRequest, Requests, SettlesBy, Inv;
    if i == j {
      SameAsItself(At(run, i).grants[id]);
    } else {
      GrantsAreAccounted(run, j - 1, id);
      StepComes(At(run, j - 1), run[j - 1].call, run[j - 1].now, id, 0);
      assert !Restarts(run, j - 1, id);
      NoRequest(run, j - 1, id, At(run, j).grants[id]);
      RequestPersists(run, i, j - 1, id);
      SameThrough(At(run, i).grants[id], At(run, j - 1).grants[id], At(run, j).grants[id]);
    }
  }

  lemma SameAsItself(g: Grant)
    ensures SameRequest(g, g)
  {
  }

  lemma SameThrough(g: Grant, h: Grant, k: Grant)
    ensures SameRequest(g, h) && SameRequest(h, k) ==> SameRequest(g, k)
  {
  }

  lemma NoRequest(run: seq<Timed>, k: nat, id: Id, g: Grant)
    requires k < |run| && !Restarts(run, k, id)
    ensures !Requests(run[k].call, OutcomeAt(run, k), id, g)
  {
  }

  /**
   A grant shown for review could still be decided at the time of the review: by denial or by
   any active account, and then not a second time. Whatever runs between the two accesses of
   the review, this holds unless the grant itself was only started in between.
   */
  lemma ReviewedCanBeDecided(run: seq<Timed>, i: nat, j: nat, approver: Option<Id>)
    requires i < j < |run| && run[j].call.CallReview? && OutcomeAt(run, j).Reviewed?
    requires run[i].call == CallExpireCode(run[j].call.userCode, run[j].call.server)
    requires forall k :: i <= k < j ==> !Restarts(run, k, OutcomeAt(run, j).authorization)
    requires approver.Some? ==> UserActive(At(run, j), approver.value)
    ensures var s, id, now := At(run, j), OutcomeAt(run, j).authorization, run[i].now;
      && id in s.grants && s.grants[id].userCode == run[j].call.userCode && s.grants[id].server == run[j].call.server
      && Decide(s, id, approver, now).1 == Done
      && forall other: Option<Id> :: Decide(Decide(s, id, approver, now).0, id, other, now).1 != Done
  {
    hide At, Decide, Inv, Seconds, SameRequest;
    var id := OutcomeAt(run, j).authorization;
    ReviewShows(At(run, j), run[j].call.userCode, run[j].call.server);
    RequestPersists(run, i + 1, j, id);
    if !Undecided(At(run, i + 1), id) { DecidedStays(run, i + 1, j, id); }
    Reachable(run, i);
    ExpiryLeavesDecidable(run, i, id, At(run, j).grants[id]);
    DecidableOnce(At(run, j), id, approver, run[i].now);
  }

  lemma ReviewShows(s: Store, userCode: Id, server: Id)
    ensures var r := Review(s, userCode, server);
      r.Reviewed? ==> Undecided(s, r.authorization) && s.grants[r.authorization].userCode == userCode && s.grants[r.authorization].server == server
  {
  }

  /** After the first access, a grant with the code that is still pending is not overdue. */
  lemma ExpiryLeavesDecidable(run: seq<Timed>, i: nat, id: Id, g: Grant)
    requires i < |run| && run[i].call.CallExpireCode? && Inv(At(run, i)) && Undecided(At(run, i + 1), id)
    requires SameRequest(At(run, i + 1).grants[id], g) && g.userCode == run[i].call.userCode && g.server == run[i].call.server
    ensures run[i].now < Instant(g.expiresAt)
  {
    var s := At(run, i);
    assert At(run, i + 1) == Step(s, run[i].call, run[i].now).0;
    assert CodeInv(s.grants) by { InvParts(s); }
    hide Inv, At;
    StoredComparison(g.expiresAt, run[i].now);
  }

  lemma DecidableOnce(s: Store, id: Id, approver: Option<Id>, now: int)
    requires Undecided(s, id) && now < Instant(s.grants[id].expiresAt) && (approver.Some? ==> UserActive(s, approver.value))
    ensures Decide(s, id, approver, now).1 == Done
    ensures forall other: Option<Id> :: Decide(Decide(s, id, approver, now).0, id, other, now).1 != Done
  {
    hide Decide;
    DecideIff(s, id, approver, now);
    var t := Decide(s, id, approver, now).0;
    forall other: Option<Id>
      ensures Decide(t, id, other, now).1 != Done
    {
      DecideIff(t, id, other, now);
    }
  }
}
