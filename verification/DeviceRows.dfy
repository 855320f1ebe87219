/**
 Which rows a single transaction can add.

 Credential rows are only added together with freshly issued credentials, one generation at
 a time; pending grants only by a start.
 */
module DeviceRows {
  import opened Wrappers
  import opened Clock
  import opened DeviceTables
  import opened DeviceTransactions
  import opened DeviceInvariant
  import opened DeviceSteps
  import PollGate

  function PolicyOf(call: Call): Option<Policy> {
    match call
    case CallExchange(_, p, _, _) => Some(p)
    case CallRotate(_, p, _, _) => Some(p)
    case _ => None
  }

  ghost predicate SameRows(s: Store, t: Store) {
    && t.families.Keys == s.families.Keys && t.accesses.Keys == s.accesses.Keys
    && t.refreshes.Keys == s.refreshes.Keys && t.rotations.Keys == s.rotations.Keys
  }

  /** `t` has one more generation, minted at `now` under policy `p` for the credentials `c`. */
  ghost predicate AddsGeneration(s: Store, t: Store, p: Policy, c: Credentials, now: int) {
    var k := Slot(c.family, c.generation);
    && c.issuedAt == now && c.generation >= 0
    && k !in s.accesses && k !in s.refreshes && c.family in t.families
    && t.accesses.Keys == s.accesses.Keys + {k}
    && t.refreshes.Keys == s.refreshes.Keys + {k}
    && t.accesses[k].expiresAt == Seconds(now) + p.accessTtl
    && Seconds(now) < t.families[c.family].absoluteExpiresAt
    && (if c.generation == 0 then
          && c.family !in s.families && t.families.Keys == s.families.Keys + {c.family}
          && t.families[c.family].absoluteExpiresAt == Seconds(now) + p.absoluteTtl
          && t.rotations.Keys == s.rotations.Keys
        else
          var source := Slot(c.family, c.generation - 1);
          && c.family in s.families && s.families[c.family].active && t.families.Keys == s.families.Keys
          && source !in s.rotations
          && t.rotations.Keys == s.rotations.Keys + {source}
          && t.rotations[source].resultExpiresAt == Seconds(now) + p.idempotencyTtl)
  }

  ghost predicate RowsOf(s: Store, t: Store, call: Call, r: Outcome, now: int) {
    SameRows(s, t) || (r.Issued? && PolicyOf(call).Some? && AddsGeneration(s, t, PolicyOf(call).value, r.credentials, now))
  }

  lemma FadesSameRows(s: Store, t: Store)
    requires Fades(s, t) || GrantsMove(s, t)
    ensures SameRows(s, t)
  {
  }

  lemma MintAddsGeneration(s: Store, k: Slot, key: Id, p: Policy, q: RotateRequest, draw: Draw, now: int)
    requires k in s.refreshes && Joined(s, k) && k.generation >= 0 && k !in s.rotations
    requires Next(k) !in s.accesses && Next(k) !in s.refreshes && s.families[k.family].active
    requires now < Instant(s.families[k.family].absoluteExpiresAt)
    ensures var c := NextCredentials(s, k, p, draw, now);
            AddsGeneration(s, Minted(s, k, key, p, q, c, draw.accessId, now), p, c, now)
  {
    var c := NextCredentials(s, k, p, draw, now);
    var t := Minted(s, k, key, p, q, c, draw.accessId, now);
    assert Slot(c.family, c.generation - 1) == k;
    assert Slot(c.family, c.generation) == Next(k);
    assert t.accesses.Keys == s.accesses.Keys + {Next(k)};
    assert t.refreshes.Keys == s.refreshes.Keys + {Next(k)};
    assert t.rotations.Keys == s.rotations.Keys + {k};
    assert t.families.Keys == s.families.Keys;
  }

  lemma MintRows(s: Store, k: Slot, key: Id, p: Policy, q: RotateRequest, draw: Draw, now: int)
    requires Inv(s) && MintReady(s, k, p, q, draw, now)
    ensures var c := NextCredentials(s, k, p, draw, now);
            AddsGeneration(s, Minted(s, k, key, p, q, c, draw.accessId, now), p, c, now)
  {
    hide Inv, ChainInv, Chain, SlotCollides, TransactionUsed, Minted, NextCredentials, AddsGeneration;
    assert ChainInv(s) by { InvParts(s); }
    ActiveIsLast(s, k);
    MintAddsGeneration(s, k, key, p, q, draw, now);
  }

  lemma RotateRows(s: Store, key: Id, p: Policy, q: RotateRequest, draw: Draw, now: int)
    requires Inv(s)
    ensures var (t, r) := Rotate(s, key, p, q, draw, now);
            SameRows(s, t) || (r.Issued? && AddsGeneration(s, t, p, r.credentials, now))
  {
    hide Inv, Fades, Minted, NextCredentials, CondemnRotation, AddsGeneration, SlotCollides, TransactionUsed;
    var (t, r) := Rotate(s, key, p, q, draw, now);
    var found := SlotOfRefresh(s.refreshes, q.token);
    if found.None? || t == s { return; }
    var k := found.value;
    if k in s.rotations {
      CondemnFades(s, k, s.rotations[k].result);
      CondemnFades(s, k, Blank);
      FadesSameRows(s, t);
    } else if r.Issued? {
      assert MintReady(s, k, p, q, draw, now);
      MintRows(s, k, key, p, q, draw, now);
    } else {
      ExpireRefreshFades(s, k);
      FadesSameRows(s, t);
    }
  }

  lemma IssueRows(s: Store, id: Id, key: Id, p: Policy, q: ExchangeRequest, draw: Draw, now: int)
    requires RowInv(s) && p.Valid() && id in s.grants && s.grants[id].status == Approved
    requires s.grants[id].server == p.server && s.grants[id].deviceCode == q.deviceCode
    ensures var (t, r) := IssueFirst(s, id, key, p, q, draw, now);
            t == s || (r.Issued? && AddsGeneration(s, t, p, r.credentials, now))
  {
    hide FirstCollides;
    var (t, r) := IssueFirst(s, id, key, p, q, draw, now);
    if r.Issued? {
      assert IssueResult(s, id, key, p, q, draw, now, t, r.credentials);
      IssueTables(s, id, key, p, q, draw, now, t, r.credentials);
      assert !FirstCollides(s, id, q.transaction, draw);
      NotCollidingIsNew(s, id, q.transaction, draw);
      hide IssueFirst, IssueResult;
      CutCommutesWithSpan(now, p.accessTtl);
      CutCommutesWithSpan(now, p.absoluteTtl);
    }
  }

  lemma NotCollidingIsNew(s: Store, id: Id, transaction: Id, draw: Draw)
    requires !FirstCollides(s, id, transaction, draw)
    ensures draw.family !in s.families && Slot(draw.family, 0) !in s.accesses && Slot(draw.family, 0) !in s.refreshes
  {
  }

  lemma SameSlotCollision(s: Store, t: Store, k: Slot, draw: Draw)
    requires s.accesses == t.accesses && s.refreshes == t.refreshes
    ensures SlotCollides(s, k, draw) <==> SlotCollides(t, k, draw)
  {
  }

  lemma ExchangeRows(s: Store, key: Id, p: Policy, q: ExchangeRequest, draw: Draw, now: int)
    requires Inv(s)
    ensures var (t, r) := Exchange(s, key, p, q, draw, now);
            SameRows(s, t) || (r.Issued? && AddsGeneration(s, t, p, r.credentials, now))
  {
    hide Inv, ExchangeOpen, RecoverExchange, AddsGeneration;
    var id := GrantOfCode(s.grants, q.deviceCode);
    if p.Valid() && id.Some? && s.grants[id.value].server == p.server && s.grants[id.value].status != Consumed {
      OpenExchangeRows(s, id.value, key, p, q, draw, now);
    }
  }

  lemma OpenExchangeRows(s: Store, id: Id, key: Id, p: Policy, q: ExchangeRequest, draw: Draw, now: int)
    requires Inv(s) && id in s.grants && p.Valid() && s.grants[id].deviceCode == q.deviceCode
    requires s.grants[id].server == p.server && s.grants[id].status != Consumed
    ensures var (t, r) := ExchangeOpen(s, id, key, p, q, draw, now);
            SameRows(s, t) || (r.Issued? && AddsGeneration(s, t, p, r.credentials, now))
  {
    hide Inv, GrantsMove, IssueFirst, ExpireGrant, PassGate, AddsGeneration, Instant, SameRows;
    GateKeepsRows(s, id, now);
    var (passed, verdict) := PassGate(s, id, now);
    if s.grants[id].status == Approved {
      IssueRows(passed, id, key, p, q, draw, now);
      var (t, r) := IssueFirst(passed, id, key, p, q, draw, now);
      if t != passed {
        SameTablesSameAddition(s, passed, t, p, r.credentials, now);
      }
    }
  }

  lemma GateKeepsRows(s: Store, id: Id, now: int)
    requires Inv(s) && id in s.grants && s.grants[id].status != Consumed
    ensures SameRows(s, s) && SameRows(s, ExpireGrant(s, id, now))
    ensures var passed := PassGate(s, id, now).0;
      SameRows(s, passed) && RowInv(passed) && passed == s.(grants := passed.grants) && id in passed.grants
      && passed.grants[id].status == s.grants[id].status && passed.grants[id].server == s.grants[id].server
      && passed.grants[id].deviceCode == s.grants[id].deviceCode
  {
    hide Inv, PollGate.Check, SameRows, ExpireGrant, Seconds, ChainInv, UniqueInv, ResultInv, GrantInv, CodeInv, CapacityInv;
    InvParts(s);
    GateSameRows(s, id, now);
  }

  lemma SameTablesSameAddition(s: Store, passed: Store, t: Store, p: Policy, c: Credentials, now: int)
    requires passed == s.(grants := passed.grants) && AddsGeneration(passed, t, p, c, now)
    ensures AddsGeneration(s, t, p, c, now)
  {
  }

  // Starts, reviews, decisions and polls touch grants only.

  lemma StartKeepsRows(s: Store, p: Policy, q: StartRequest, draws: seq<GrantDraw>, now: int)
    ensures SameRows(s, Start(s, p, q, draws, now).0)
  {
    hide DropRetained, ExpireOverdue, FirstFree, ActiveGrants, NewGrant, Span, Policy.Valid;
  }

  lemma ExpireByCodeKeepsRows(s: Store, code: Id, server: Id, now: int)
    ensures SameRows(s, ExpireByCode(s, code, server, now))
  {
    hide Seconds;
  }

  lemma DecideKeepsRows(s: Store, id: Id, approver: Option<Id>, now: int)
    ensures SameRows(s, Decide(s, id, approver, now).0)
  {
    hide Seconds, Instant, UserActive;
  }

  lemma PollKeepsRows(s: Store, code: Id, server: Id, now: int)
    ensures SameRows(s, Poll(s, code, server, now).0)
  {
    hide Instant, PassGate, ExpireGrant, SameRows;
    var id := GrantOfCode(s.grants, code);
    if id.Some? { GateSameRows(s, id.value, now); } else { SameRowsAsBefore(s); }
  }

  lemma SameRowsAsBefore(s: Store)
    ensures SameRows(s, s)
  {
  }

  lemma GateSameRows(s: Store, id: Id, now: int)
    requires id in s.grants
    ensures SameRows(s, s) && SameRows(s, ExpireGrant(s, id, now)) && SameRows(s, PassGate(s, id, now).0)
  {
    hide Seconds, PollGate.Check;
  }

  lemma AuthenticateKeepsRows(s: Store, token: Id, server: Id, now: int)
    ensures SameRows(s, Authenticate(s, token, server, now).0)
  {
    hide Instant;
  }

  lemma OtherCallsKeepRows(s: Store, call: Call, now: int)
    requires call.CallChangePassword? || call.CallSetUser? || call.CallRevokeDevice? || call.CallRevoke? || call.CallAuthenticate?
      || call.CallSweepRotations? || call.CallSweepResults? || call.CallSweepGrants?
    ensures SameRows(s, Transact(s, call, now).0)
  {
    hide Fades, RevokeRows, Authenticate, Seconds, HasFamily;
    match call
    case CallAuthenticate(token, server) => AuthenticateKeepsRows(s, token, server, now);
    case CallRevoke(_, family) =>
      if family in s.families {
        RevokeRowsFades(s, family);
        FadesSameRows(s, RevokeRows(s, family));
      }
    case _ =>
  }

  lemma TransactRows(s: Store, call: Call, now: int)
    requires Inv(s)
    ensures var (t, r) := Transact(s, call, now); RowsOf(s, t, call, r, now)
  {
    hide Inv, AddsGeneration, SameRows, Rotate, Exchange, Start, ExpireByCode, Review, Decide, Poll;
    match call
    case CallExchange(key, p, q, draw) => ExchangeRows(s, key, p, q, draw, now);
    case CallRotate(key, p, q, draw) => RotateRows(s, key, p, q, draw, now);
    case CallStart(p, q, draws) => StartKeepsRows(s, p, q, draws, now);
    case CallExpireCode(code, server) => ExpireByCodeKeepsRows(s, code, server, now);
    case CallReview(_, _) => SameRowsAsBefore(s);
    case CallDecide(id, approver) => DecideKeepsRows(s, id, approver, now);
    case CallPoll(code, server) => PollKeepsRows(s, code, server, now);
    case _ => OtherCallsKeepRows(s, call, now);
  }

  lemma StepRows(s: Store, call: Call, now: int)
    requires Inv(s)
    ensures var (t, r) := Step(s, call, now); RowsOf(s, t, call, r, now)
  {
    hide Inv, AddsGeneration, Transact;
    TransactRows(s, call, now);
  }

  ghost predicate PendingOnlyFrom(s: Store, t: Store, r: Outcome, id: Id) {
    id in t.grants && t.grants[id].status == Pending ==>
      (id in s.grants && s.grants[id].status == Pending) || (r.Started? && r.authorization == id)
  }

  lemma StartPending(s: Store, p: Policy, q: StartRequest, draws: seq<GrantDraw>, now: int, id: Id)
    ensures var (t, r) := Start(s, p, q, draws, now); PendingOnlyFrom(s, t, r, id)
  {
    hide FirstFree, ActiveGrants, HasFamily;
  }

  lemma GatePending(s: Store, grant: Id, now: int, id: Id)
    requires grant in s.grants
    ensures grant in PassGate(s, grant, now).0.grants
    ensures var t := PassGate(s, grant, now).0; id in t.grants && t.grants[id].status == Pending ==> id in s.grants && s.grants[id].status == Pending
    ensures var t := ExpireGrant(s, grant, now); id in t.grants && t.grants[id].status == Pending ==> id in s.grants && s.grants[id].status == Pending
  {
    hide Seconds, PollGate.Check;
  }

  lemma ExchangePending(s: Store, key: Id, p: Policy, q: ExchangeRequest, draw: Draw, now: int, id: Id)
    ensures var (t, r) := Exchange(s, key, p, q, draw, now); PendingOnlyFrom(s, t, r, id)
  {
    hide FirstCollides, FirstCredentials, DeviceOf, NewFamily, RecoverExchange, PassGate, ExpireGrant, Instant;
    var grant := GrantOfCode(s.grants, q.deviceCode);
    if grant.Some? { GatePending(s, grant.value, now, id); }
  }

  lemma ReviewPending(s: Store, code: Id, server: Id, now: int, id: Id)
    ensures PendingOnlyFrom(s, ExpireByCode(s, code, server, now), Done, id) && PendingOnlyFrom(s, s, Review(s, code, server), id)
  {
  }

  lemma DecidePending(s: Store, grant: Id, approver: Option<Id>, now: int, id: Id)
    ensures var (t, r) := Decide(s, grant, approver, now); PendingOnlyFrom(s, t, r, id)
  {
  }

  lemma PollPending(s: Store, code: Id, server: Id, now: int, id: Id)
    ensures var (t, r) := Poll(s, code, server, now); PendingOnlyFrom(s, t, r, id)
  {
    hide NextCredentials, SlotCollides, TransactionUsed;
  }

  lemma QuietCallsLeaveGrants(s: Store, call: Call, now: int)
    requires call.CallRotate? || call.CallAuthenticate? || call.CallRevoke? || call.CallChangePassword? || call.CallSetUser?
      || call.CallRevokeDevice? || call.CallSweepRotations?
    ensures Transact(s, call, now).0.grants == s.grants
  {
  }

  /** A grant is pending after a transaction only if it was before, or the transaction started it. */
  lemma StepPending(s: Store, call: Call, now: int, id: Id)
    ensures var (t, r) := Step(s, call, now); PendingOnlyFrom(s, t, r, id)
  {
    hide Rotate, Authenticate, Revoke, Start, Exchange, ExpireByCode, Review, Decide, Poll;
    match call
    case CallStart(p, q, draws) => StartPending(s, p, q, draws, now, id);
    case CallExchange(key, p, q, draw) => ExchangePending(s, key, p, q, draw, now, id);
    case CallExpireCode(code, server) => ReviewPending(s, code, server, now, id);
    case CallReview(code, server) => ReviewPending(s, code, server, now, id);
    case CallDecide(grant, approver) => DecidePending(s, grant, approver, now, id);
    case CallPoll(code, server) => PollPending(s, code, server, now, id);
    case CallSweepResults =>
    case CallSweepGrants(_) =>
    case _ => QuietCallsLeaveGrants(s, call, now);
  }
}
