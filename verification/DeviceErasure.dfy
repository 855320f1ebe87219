/**
 Erasing expired ciphertexts cannot be observed.

 Two stores are alike at a time when they differ at most in result ciphertexts that have
 expired by then and in the bookkeeping time of consumed grants. Alike stores answer every
 call alike and stay alike, so dropping the erasing sweeps from a run changes no answer.
 */
module DeviceErasure {
  import opened Wrappers
  import opened Clock
  import opened DeviceTables
  import opened DeviceTransactions
  import opened DeviceInvariant
  import opened DeviceSteps
  import opened DeviceRows
  import opened DeviceRuns
  import PollGate

  ghost predicate RotationAlike(a: Rotation, b: Rotation, now: int) {
    b == a.(result := b.result) && (b.result == a.result || a.resultExpiresAt <= Seconds(now))
  }

  ghost predicate GrantAlike(a: Grant, b: Grant, now: int) {
    || b == a
    || (&& a.status == Consumed
        && b == a.(result := b.result, updatedAt := b.updatedAt)
        && (b.result == a.result || (a.resultExpiresAt.Some? && a.resultExpiresAt.value <= Seconds(now))))
  }

  ghost predicate GrantsAlike(a: map<Id, Grant>, b: map<Id, Grant>, now: int) {
    a.Keys == b.Keys && forall id :: id in a ==> GrantAlike(a[id], b[id], now)
  }

  ghost predicate RotationsAlike(a: map<Slot, Rotation>, b: map<Slot, Rotation>, now: int) {
    a.Keys == b.Keys && forall k :: k in a ==> RotationAlike(a[k], b[k], now)
  }

  ghost predicate Alike(s: Store, t: Store, now: int) {
    && t == s.(grants := t.grants, rotations := t.rotations)
    && GrantsAlike(s.grants, t.grants, now)
    && RotationsAlike(s.rotations, t.rotations, now)
  }

  lemma AlikeLater(s: Store, t: Store, now: int, later: int)
    requires Alike(s, t, now) && now <= later
    ensures Alike(s, t, later)
  {
  }

  ghost predicate SameAnswer(a: (Store, Outcome), b: (Store, Outcome), now: int) {
    a.1 == b.1 && Alike(a.0, b.0, now)
  }

  // Look-ups find the same rows.

  lemma SameCode(a: map<Id, Grant>, b: map<Id, Grant>, code: Id, now: int)
    requires GrantsAlike(a, b, now) && CodeInv(a) && CodeInv(b)
    ensures GrantOfCode(a, code) == GrantOfCode(b, code)
  {
    var found := GrantOfCode(a, code);
    if found.Some? { assert b[found.value].deviceCode == code; }
    var other := GrantOfCode(b, code);
    if other.Some? { assert a[other.value].deviceCode == code; }
  }

  lemma SameUserCode(a: map<Id, Grant>, b: map<Id, Grant>, code: Id, now: int)
    requires GrantsAlike(a, b, now) && CodeInv(a) && CodeInv(b)
    ensures GrantOfUserCode(a, code) == GrantOfUserCode(b, code)
  {
    var found := GrantOfUserCode(a, code);
    if found.Some? { assert b[found.value].userCode == code; }
    var other := GrantOfUserCode(b, code);
    if other.Some? { assert a[other.value].userCode == code; }
  }

  // Grants: starting.

  lemma ExpiredAlike(a: map<Id, Grant>, b: map<Id, Grant>, server: Id, now: int)
    requires GrantsAlike(a, b, now)
    ensures GrantsAlike(ExpireOverdue(a, server, now), ExpireOverdue(b, server, now), now)
  {
    hide Seconds;
  }

  lemma DroppedAlike(a: map<Id, Grant>, b: map<Id, Grant>, families: map<Id, Family>, server: Id, now: int)
    requires GrantsAlike(a, b, now)
    ensures GrantsAlike(DropRetained(a, families, server, now), DropRetained(b, families, server, now), now)
  {
    hide HasFamily, Seconds;
  }

  lemma ReadyAlike(a: map<Id, Grant>, b: map<Id, Grant>, families: map<Id, Family>, server: Id, now: int)
    requires GrantsAlike(a, b, now)
    ensures GrantsAlike(DropRetained(ExpireOverdue(a, server, now), families, server, now),
                        DropRetained(ExpireOverdue(b, server, now), families, server, now), now)
  {
    hide GrantsAlike, ExpireOverdue, DropRetained;
    ExpiredAlike(a, b, server, now);
    DroppedAlike(ExpireOverdue(a, server, now), ExpireOverdue(b, server, now), families, server, now);
  }

  lemma SameActive(a: map<Id, Grant>, b: map<Id, Grant>, server: Id, now: int)
    requires GrantsAlike(a, b, now)
    ensures ActiveGrants(a, server) == ActiveGrants(b, server)
  {
  }

  lemma SameCollision(a: map<Id, Grant>, b: map<Id, Grant>, d: GrantDraw, now: int)
    requires GrantsAlike(a, b, now)
    ensures GrantCollides(a, d) <==> GrantCollides(b, d)
  {
    if id :| id in a && (a[id].deviceCode == d.deviceCode || a[id].userCode == d.userCode) {
      assert b[id].deviceCode == d.deviceCode || b[id].userCode == d.userCode;
    }
    if id :| id in b && (b[id].deviceCode == d.deviceCode || b[id].userCode == d.userCode) {
      assert a[id].deviceCode == d.deviceCode || a[id].userCode == d.userCode;
    }
  }

  lemma {:induction false} SameFirstFree(a: map<Id, Grant>, b: map<Id, Grant>, draws: seq<GrantDraw>, attempt: nat, now: int)
    requires GrantsAlike(a, b, now) && attempt <= |draws|
    ensures FirstFree(a, draws, attempt) == FirstFree(b, draws, attempt)
    decreases |draws| - attempt
  {
    hide GrantCollides, GrantsAlike;
    if attempt < |draws| && attempt != 5 {
      SameCollision(a, b, draws[attempt], now);
      SameFirstFree(a, b, draws, attempt + 1, now);
    }
  }

  lemma PutAlike(a: map<Id, Grant>, b: map<Id, Grant>, id: Id, g: Grant, now: int)
    requires GrantsAlike(a, b, now)
    ensures GrantsAlike(a[id := g], b[id := g], now)
  {
  }

  /** Stores alike, with grants alike put in, answer alike. */
  lemma AnswerAlike(s: Store, t: Store, a: map<Id, Grant>, b: map<Id, Grant>, r: Outcome, now: int)
    requires Alike(s, t, now) && GrantsAlike(a, b, now)
    ensures SameAnswer((s.(grants := a), r), (t.(grants := b), r), now) && SameAnswer((s, r), (t, r), now)
  {
    hide GrantsAlike, RotationsAlike;
  }

  lemma StartAlike(s: Store, t: Store, p: Policy, q: StartRequest, draws: seq<GrantDraw>, now: int)
    requires Alike(s, t, now)
    ensures SameAnswer(Start(s, p, q, draws, now), Start(t, p, q, draws, now), now)
  {
    hide SameAnswer, GrantsAlike, RotationsAlike, DropRetained, ExpireOverdue, ActiveGrants, FirstFree, NewGrant, Seconds, Span;
    var a := DropRetained(ExpireOverdue(s.grants, p.server, now), s.families, p.server, now);
    var b := DropRetained(ExpireOverdue(t.grants, p.server, now), t.families, p.server, now);
    ReadyAlike(s.grants, t.grants, s.families, p.server, now);
    SameActive(a, b, p.server, now);
    SameFirstFree(a, b, draws, 0, now);
    hide Alike;
    var d := FirstFree(a, draws, 0);
    if !p.Valid() {
      AnswerAlike(s, t, a, b, Failed(InvalidRequest), now);
    } else if |ActiveGrants(a, p.server)| >= MAX_ACTIVE_GRANTS {
      AnswerAlike(s, t, a, b, Failed(SlowDown(60)), now);
    } else if d.None? {
      AnswerAlike(s, t, a, b, Failed(InvalidState), now);
    } else {
      var g := NewGrant(p, q, d.value, now);
      PutAlike(a, b, d.value.id, g, now);
      AnswerAlike(s, t, a[d.value.id := g], b[d.value.id := g],
                  Started(d.value.id, d.value.deviceCode, d.value.userCode, now + Span(p.authorizationTtl)), now);
    }
  }

  lemma UpdateAlike(s: Store, t: Store, id: Id, g: Grant, now: int)
    requires Alike(s, t, now)
    ensures Alike(s.(grants := s.grants[id := g]), t.(grants := t.grants[id := g]), now)
  {
    hide RotationsAlike;
  }

  lemma SameOpenGrant(s: Store, t: Store, id: Id, now: int)
    requires Alike(s, t, now)
    ensures id in s.grants <==> id in t.grants
    ensures id in s.grants ==> s.grants[id].status == t.grants[id].status && GrantAlike(s.grants[id], t.grants[id], now)
    ensures id in s.grants && s.grants[id].status != Consumed ==> t.grants[id] == s.grants[id]
  {
    hide RotationsAlike;
    if id in s.grants { assert GrantAlike(s.grants[id], t.grants[id], now); }
  }

  lemma GateAlike(s: Store, t: Store, id: Id, now: int)
    requires Alike(s, t, now) && id in s.grants && s.grants[id].status != Consumed
    ensures id in t.grants && t.grants[id] == s.grants[id]
    ensures Alike(PassGate(s, id, now).0, PassGate(t, id, now).0, now)
    ensures PassGate(s, id, now).1 == PassGate(t, id, now).1
    ensures PassGate(s, id, now).0.grants[id] == PassGate(t, id, now).0.grants[id]
    ensures Alike(ExpireGrant(s, id, now), ExpireGrant(t, id, now), now)
  {
    SameOpenGrant(s, t, id, now);
    var g := s.grants[id];
    UpdateAlike(s, t, id, g.(nextPollAt := PollGate.Check(g.nextPollAt, g.interval, now).1, updatedAt := Seconds(now)), now);
    UpdateAlike(s, t, id, g.(status := Expired, updatedAt := Seconds(now)), now);
    hide Alike;
  }

  lemma ReviewAlike(s: Store, t: Store, userCode: Id, server: Id, now: int)
    requires Alike(s, t, now) && CodeInv(s.grants) && CodeInv(t.grants)
    ensures Alike(ExpireByCode(s, userCode, server, now), ExpireByCode(t, userCode, server, now), now)
    ensures Review(s, userCode, server) == Review(t, userCode, server)
  {
    hide CodeInv, RotationsAlike;
    SameUserCode(s.grants, t.grants, userCode, now);
  }

  lemma DecideAlike(s: Store, t: Store, id: Id, approver: Option<Id>, now: int)
    requires Alike(s, t, now)
    ensures SameAnswer(Decide(s, id, approver, now), Decide(t, id, approver, now), now)
  {
    hide GrantsAlike, RotationsAlike;
    SameOpenGrant(s, t, id, now);
    if id in s.grants {
      UpdateAlike(s, t, id, Decide(s, id, approver, now).0.grants[id], now);
    }
  }

  lemma PollAlike(s: Store, t: Store, code: Id, server: Id, now: int)
    requires Alike(s, t, now) && CodeInv(s.grants) && CodeInv(t.grants)
    ensures SameAnswer(Poll(s, code, server, now), Poll(t, code, server, now), now)
  {
    hide CodeInv, RotationsAlike, PassGate, ExpireGrant;
    SameCode(s.grants, t.grants, code, now);
    var found := GrantOfCode(s.grants, code);
    if found.Some? && s.grants[found.value].status != Consumed {
      GateAlike(s, t, found.value, now);
    }
  }

  lemma RecoverExchangeAlike(a: Grant, b: Grant, id: Id, key: Id, p: Policy, q: ExchangeRequest, now: int)
    requires GrantAlike(a, b, now) && a.status == Consumed
    ensures RecoverExchange(a, id, key, p, q, now) == RecoverExchange(b, id, key, p, q, now)
  {
  }

  lemma SameFirstCollision(s: Store, t: Store, id: Id, transaction: Id, draw: Draw, now: int)
    requires Alike(s, t, now)
    ensures FirstCollides(s, id, transaction, draw) <==> FirstCollides(t, id, transaction, draw)
  {
    hide SlotCollides, HasFamily, RotationsAlike;
    assert SlotCollides(s, Slot(draw.family, 0), draw) <==> SlotCollides(t, Slot(draw.family, 0), draw) by {
      SameSlotCollision(s, t, Slot(draw.family, 0), draw);
    }
    if other :| other in s.grants && other != id && s.grants[other].transaction == Some(transaction) {
      assert t.grants[other].transaction == Some(transaction);
    }
    if other :| other in t.grants && other != id && t.grants[other].transaction == Some(transaction) {
      assert s.grants[other].transaction == Some(transaction);
    }
  }

  lemma IssueFirstAlike(s: Store, t: Store, id: Id, key: Id, p: Policy, q: ExchangeRequest, draw: Draw, now: int)
    requires Alike(s, t, now) && id in s.grants && id in t.grants && s.grants[id] == t.grants[id]
    ensures SameAnswer(IssueFirst(s, id, key, p, q, draw, now), IssueFirst(t, id, key, p, q, draw, now), now)
  {
    hide FirstCollides, RotationsAlike, FirstCredentials, NewFamily, GrantsAlike;
    SameFirstCollision(s, t, id, q.transaction, draw, now);
    var (s', r) := IssueFirst(s, id, key, p, q, draw, now);
    if r.Issued? {
      PutAlike(s.grants, t.grants, id, s'.grants[id], now);
    }
  }

  lemma OpenExchangeAlike(s: Store, t: Store, id: Id, key: Id, p: Policy, q: ExchangeRequest, draw: Draw, now: int)
    requires Alike(s, t, now) && id in s.grants && s.grants[id].status != Consumed
    ensures id in t.grants && t.grants[id] == s.grants[id]
    ensures SameAnswer(ExchangeOpen(s, id, key, p, q, draw, now), ExchangeOpen(t, id, key, p, q, draw, now), now)
  {
    GateAlike(s, t, id, now);
    var (s', v) := PassGate(s, id, now);
    var (t', w) := PassGate(t, id, now);
    hide PassGate, ExpireGrant, IssueFirst;
    IssueFirstAlike(s', t', id, key, p, q, draw, now);
    hide GrantsAlike, RotationsAlike;
  }

  lemma ExchangeAlike(s: Store, t: Store, key: Id, p: Policy, q: ExchangeRequest, draw: Draw, now: int)
    requires Alike(s, t, now) && CodeInv(s.grants) && CodeInv(t.grants)
    ensures SameAnswer(Exchange(s, key, p, q, draw, now), Exchange(t, key, p, q, draw, now), now)
  {
    hide ExchangeOpen, RecoverExchange;
    SameCode(s.grants, t.grants, q.deviceCode, now);
    var found := GrantOfCode(s.grants, q.deviceCode);
    if !p.Valid() || found.None? { return; }
    var id := found.value;
    if s.grants[id].status == Consumed {
      SameOpenGrant(s, t, id, now);
      RecoverExchangeAlike(s.grants[id], t.grants[id], id, key, p, q, now);
    } else {
      OpenExchangeAlike(s, t, id, key, p, q, draw, now);
    }
  }

  // Rotations.

  lemma CondemnAlike(s: Store, t: Store, k: Slot, keep: bool, now: int)
    requires Alike(s, t, now) && k in s.rotations && k.family in s.families
    ensures k in t.rotations && k.family in t.families
    ensures Alike(CondemnRotation(s, k, if keep then s.rotations[k].result else Blank),
                  CondemnRotation(t, k, if keep then t.rotations[k].result else Blank), now)
  {
    hide GrantsAlike;
    assert RotationAlike(s.rotations[k], t.rotations[k], now);
    assert RevokeRows(t, k.family) == RevokeRows(s, k.family).(grants := t.grants, rotations := t.rotations);
    hide RevokeRows;
  }

  lemma RecoverRotationAlike(s: Store, t: Store, k: Slot, key: Id, q: RotateRequest, now: int)
    requires Alike(s, t, now) && k in s.rotations && k.family in s.families
    ensures k in t.rotations && k.family in t.families
    ensures SameAnswer(RecoverRotation(s, k, key, q, now), RecoverRotation(t, k, key, q, now), now)
  {
    CondemnAlike(s, t, k, true, now);
    CondemnAlike(s, t, k, false, now);
    assert RotationAlike(s.rotations[k], t.rotations[k], now);
    hide CondemnRotation, GrantsAlike, RotationsAlike;
    StoredComparison(s.rotations[k].resultExpiresAt, now);
  }

  lemma SameTransactionUse(a: map<Slot, Rotation>, b: map<Slot, Rotation>, transaction: Id, now: int)
    requires RotationsAlike(a, b, now)
    ensures TransactionUsed(a, transaction) <==> TransactionUsed(b, transaction)
  {
    if k :| k in a && a[k].transaction == transaction { assert b[k].transaction == transaction; }
    if k :| k in b && b[k].transaction == transaction { assert a[k].transaction == transaction; }
  }

  lemma MintAlike(s: Store, t: Store, k: Slot, key: Id, p: Policy, q: RotateRequest, draw: Draw, now: int)
    requires Alike(s, t, now) && k in s.refreshes && Joined(s, k)
    ensures k in t.refreshes && Joined(t, k)
    ensures SameAnswer(MintNext(s, k, key, p, q, draw, now), MintNext(t, k, key, p, q, draw, now), now)
  {
    SameTransactionUse(s.rotations, t.rotations, q.transaction, now);
    SameSlotCollision(s, t, Next(k), draw);
    hide SlotCollides, TransactionUsed, GrantsAlike;
    var c := NextCredentials(s, k, p, draw, now);
    assert NextCredentials(t, k, p, draw, now) == c;
    var s' := Minted(s, k, key, p, q, c, draw.accessId, now);
    var t' := Minted(t, k, key, p, q, c, draw.accessId, now);
    assert t' == s'.(grants := t.grants, rotations := t'.rotations);
    assert RotationsAlike(s'.rotations, t'.rotations, now);
    hide Minted, NextCredentials, RotationsAlike;
  }

  lemma RotateAlike(s: Store, t: Store, key: Id, p: Policy, q: RotateRequest, draw: Draw, now: int)
    requires Alike(s, t, now)
    ensures SameAnswer(Rotate(s, key, p, q, draw, now), Rotate(t, key, p, q, draw, now), now)
  {
    var found := SlotOfRefresh(s.refreshes, q.token);
    if !p.Valid() || q.generation < 0 || q.server != p.server || found.None? || RotateRefusal(s, found.value, q).Some? {
      return;
    }
    var k := found.value;
    assert k in s.rotations <==> k in t.rotations;
    hide RecoverRotation, MintNext, GrantsAlike, RotationsAlike, SameAnswer;
    if k in s.rotations {
      RecoverRotationAlike(s, t, k, key, q, now);
    } else {
      MintAlike(s, t, k, key, p, q, draw, now);
    }
  }

  // The remaining calls.

  lemma ExpireAllAlike(a: map<Id, Grant>, b: map<Id, Grant>, now: int)
    requires GrantsAlike(a, b, now)
    ensures GrantsAlike(ExpireAll(a, now), ExpireAll(b, now), now)
  {
  }

  lemma RemoveAlike(a: map<Id, Grant>, b: map<Id, Grant>, families: map<Id, Family>, chosen: set<Id>, now: int)
    requires GrantsAlike(a, b, now)
    ensures GrantsAlike(Remove(a, families, chosen, now), Remove(b, families, chosen, now), now)
  {
    hide HasFamily;
  }

  lemma SweepGrantsAlike(s: Store, t: Store, ids: set<Id>, now: int)
    requires Alike(s, t, now)
    ensures Alike(SweepGrants(s, ids, now), SweepGrants(t, ids, now), now)
  {
    hide GrantsAlike, RotationsAlike, ExpireAll, Remove;
    ExpireAllAlike(s.grants, t.grants, now);
    RemoveAlike(ExpireAll(s.grants, now), ExpireAll(t.grants, now), s.families, ids, now);
  }

  predicate IsErasure(call: Call) {
    call.CallSweepRotations? || call.CallSweepResults?
  }

  lemma AuthenticateAlike(s: Store, t: Store, token: Id, server: Id, now: int)
    requires Alike(s, t, now)
    ensures SameAnswer(Authenticate(s, token, server, now), Authenticate(t, token, server, now), now)
  {
    hide GrantsAlike, RotationsAlike, Instant;
  }

  lemma AccountsAlike(s: Store, t: Store, call: Call, now: int)
    requires Alike(s, t, now)
    requires call.CallAuthenticate? || call.CallRevoke? || call.CallChangePassword? || call.CallSetUser? || call.CallRevokeDevice?
    ensures SameAnswer(Transact(s, call, now), Transact(t, call, now), now)
  {
    hide GrantsAlike, RotationsAlike, Authenticate;
    match call
    case CallAuthenticate(token, server) => AuthenticateAlike(s, t, token, server, now);
    case _ =>
  }

  lemma TransactAlike(s: Store, t: Store, call: Call, now: int)
    requires Alike(s, t, now) && CodeInv(s.grants) && CodeInv(t.grants) && !IsErasure(call)
    ensures SameAnswer(Transact(s, call, now), Transact(t, call, now), now)
  {
    hide CodeInv, Start, ExpireByCode, Review, Decide, Poll, Exchange, Rotate, Authenticate, Revoke, ChangePassword, SweepGrants, Alike;
    match call
    case CallStart(p, q, draws) => StartAlike(s, t, p, q, draws, now);
    case CallExpireCode(code, server) => ReviewAlike(s, t, code, server, now);
    case CallReview(code, server) => ReviewAlike(s, t, code, server, now);
    case CallDecide(id, approver) => DecideAlike(s, t, id, approver, now);
    case CallPoll(code, server) => PollAlike(s, t, code, server, now);
    case CallExchange(key, p, q, draw) => ExchangeAlike(s, t, key, p, q, draw, now);
    case CallRotate(key, p, q, draw) => RotateAlike(s, t, key, p, q, draw, now);
    case CallSweepGrants(ids) => SweepGrantsAlike(s, t, ids, now);
    case _ => AccountsAlike(s, t, call, now);
  }

  /** Alike stores give the same answer to every call but the erasing sweeps, and stay alike. */
  lemma StepAlike(s: Store, t: Store, call: Call, now: int)
    requires Alike(s, t, now) && Inv(s) && Inv(t) && !IsErasure(call)
    ensures SameAnswer(Step(s, call, now), Step(t, call, now), now)
  {
    hide Inv, CodeInv, Transact;
    assert CodeInv(s.grants) by { InvParts(s); }
    assert CodeInv(t.grants) by { InvParts(t); }
    TransactAlike(s, t, call, now);
  }

  /** An erasing sweep leaves a store alike to what it was. */
  lemma ErasureKeepsAlike(s: Store, t: Store, call: Call, now: int)
    requires Alike(s, t, now) && IsErasure(call)
    ensures Alike(Step(s, call, now).0, t, now)
  {
  }

  // Runs.

  /** The answers of a run from `s` to everything but its erasing sweeps. */
  ghost function Answers(s: Store, run: seq<Timed>): seq<Outcome>
    decreases |run|
  {
    if run == [] then []
    else
      var (t, r) := Step(s, run[0].call, run[0].now);
      if IsErasure(run[0].call) then Answers(t, run[1..]) else [r] + Answers(t, run[1..])
  }

  ghost function Final(s: Store, run: seq<Timed>): Store
    decreases |run|
  {
    if run == [] then s else Final(Step(s, run[0].call, run[0].now).0, run[1..])
  }

  function WithoutErasures(run: seq<Timed>): seq<Timed> {
    if run == [] then []
    else if IsErasure(run[0].call) then WithoutErasures(run[1..])
    else [run[0]] + WithoutErasures(run[1..])
  }

  ghost predicate Monotone(run: seq<Timed>, from: int) {
    run == [] || (from <= run[0].now && Monotone(run[1..], run[0].now))
  }

  function LastTime(run: seq<Timed>, from: int): int {
    if run == [] then from else LastTime(run[1..], run[0].now)
  }

  lemma {:induction false} AlikeRuns(s: Store, t: Store, run: seq<Timed>, from: int)
    requires Inv(s) && Inv(t) && Alike(s, t, from) && Monotone(run, from)
    ensures Answers(s, run) == Answers(t, WithoutErasures(run))
    ensures Alike(Final(s, run), Final(t, WithoutErasures(run)), LastTime(run, from))
    decreases |run|
  {
    hide Inv, Step, Alike, Extends, Describes;
    if run != [] {
      var call, now := run[0].call, run[0].now;
      AlikeLater(s, t, from, now);
      StepIsSound(s, call, now);
      if IsErasure(call) {
        ErasureKeepsAlike(s, t, call, now);
        AlikeRuns(Step(s, call, now).0, t, run[1..], now);
      } else {
        StepIsSound(t, call, now);
        StepAlike(s, t, call, now);
        var rest := WithoutErasures(run[1..]);
        assert WithoutErasures(run)[1..] == rest;
        AlikeRuns(Step(s, call, now).0, Step(t, call, now).0, run[1..], now);
      }
    }
  }

  /**
   On a clock that never runs back, a run with erasing sweeps anywhere in it gives the same
   answers as the run without them, and ends in a store that differs only in expired ciphertexts.
   */
  lemma ErasureIsUnobservable(s: Store, run: seq<Timed>, from: int)
    requires Inv(s) && Monotone(run, from)
    ensures Answers(s, run) == Answers(s, WithoutErasures(run))
    ensures Alike(Final(s, run), Final(s, WithoutErasures(run)), LastTime(run, from))
  {
    AlikeRuns(s, s, run, from);
  }
}
