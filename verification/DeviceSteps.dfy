/**
 Every transaction keeps the invariant, extends the history, and hands out only
 credentials that the rows describe.
 */
module DeviceSteps {
  import opened Wrappers
  import opened Clock
  import opened DeviceTables
  import opened DeviceTransactions
  import opened DeviceInvariant
  import PollGate

  /** What is shown of the store `t` and the outcome `r` of a transaction begun in `s`. */
  ghost predicate Sound(s: Store, t: Store, r: Outcome) {
    && Inv(t) && Extends(s, t)
    && (r.Issued? ==> Describes(t, r.credentials))
  }

  lemma InvParts(s: Store)
    requires Inv(s)
    ensures ChainInv(s) && RowInv(s) && UniqueInv(s) && ResultInv(s) && GrantInv(s) && CodeInv(s.grants) && CapacityInv(s.grants)
  {
  }

  lemma UnchangedIsSound(s: Store, r: Outcome)
    requires Inv(s) && !r.Issued?
    ensures Sound(s, s, r)
  {
    hide Inv, Extends, Describes;
    ExtendsIsReflexive(s);
  }

  lemma FadedIsSound(s: Store, t: Store, r: Outcome)
    requires Inv(s) && Fades(s, t) && !r.Issued?
    ensures Sound(s, t, r)
  {
    hide Inv, Extends, Describes, Fades;
    FadesKeepsInv(s, t);
  }

  lemma MovedIsSound(s: Store, t: Store, r: Outcome)
    requires Inv(s) && GrantsMove(s, t) && !r.Issued?
    ensures Sound(s, t, r)
  {
    hide Inv, Extends, Describes, GrantsMove;
    GrantsMoveKeepsInv(s, t);
  }

  lemma OneGrantMoves(s: Store, id: Id, g: Grant)
    requires id in s.grants && GrantMoves(s, s.grants[id], g)
    requires GrantInv(s)
    ensures GrantsMove(s, s.(grants := s.grants[id := g]))
  {
    forall i | i in s.grants ensures GrantMoves(s, s.grants[i], s.grants[i]) {
      assert GrantShape(s, i);
    }
  }

  lemma StartIsReady(s: Store, p: Policy, now: int)
    requires GrantInv(s)
    ensures GrantsMove(s, s.(grants := DropRetained(ExpireOverdue(s.grants, p.server, now), s.families, p.server, now)))
  {
    forall i | i in s.grants ensures GrantMoves(s, s.grants[i], ExpireOverdue(s.grants, p.server, now)[i]) {
      assert GrantShape(s, i);
    }
  }

  lemma FirstFreeIsFree(grants: map<Id, Grant>, draws: seq<GrantDraw>, attempt: nat)
    requires attempt <= |draws|
    ensures var d := FirstFree(grants, draws, attempt); d.Some? ==> !GrantCollides(grants, d.value)
    decreases |draws| - attempt
  {
  }

  lemma StartIsSound(s: Store, p: Policy, q: StartRequest, draws: seq<GrantDraw>, now: int)
    requires Inv(s)
    ensures var (t, r) := Start(s, p, q, draws, now); Sound(s, t, r)
  {
    hide Inv, Extends, Describes, GrantsMove, DropRetained, ExpireOverdue;
    var (t, r) := Start(s, p, q, draws, now);
    UnchangedIsSound(s, Failed(InvalidState));
    if !p.Valid() { return; }
    var ready := s.(grants := DropRetained(ExpireOverdue(s.grants, p.server, now), s.families, p.server, now));
    assert GrantInv(s) by { InvParts(s); }
    StartIsReady(s, p, now);
    GrantsMoveKeepsInv(s, ready);
    FirstFreeIsFree(ready.grants, draws, 0);
    if r.Started? {
      var d := FirstFree(ready.grants, draws, 0).value;
      AddGrantKeepsInv(ready, d.id, NewGrant(p, q, d, now));
      ExtendsIsTransitive(s, ready, t);
    }
  }

  lemma ExpireByCodeIsSound(s: Store, userCode: Id, server: Id, now: int)
    requires Inv(s)
    ensures Sound(s, ExpireByCode(s, userCode, server, now), Done)
  {
    hide Inv, Sound, GrantsMove, GrantInv, Seconds, ChainInv, RowInv, UniqueInv, ResultInv, CodeInv, CapacityInv;
    var t := ExpireByCode(s, userCode, server, now);
    UnchangedIsSound(s, Done);
    InvParts(s);
    if t != s {
      var id := GrantOfUserCode(s.grants, userCode).value;
      OneGrantMoves(s, id, t.grants[id]);
      MovedIsSound(s, t, Done);
    }
  }

  lemma ReviewIsSound(s: Store, userCode: Id, server: Id)
    requires Inv(s)
    ensures Sound(s, s, Review(s, userCode, server))
  {
    hide Inv, Sound;
    UnchangedIsSound(s, Review(s, userCode, server));
  }

  lemma DecideIsSound(s: Store, id: Id, approver: Option<Id>, now: int)
    requires Inv(s)
    ensures var (t, r) := Decide(s, id, approver, now); Sound(s, t, r)
  {
    hide Inv, Sound, GrantsMove, GrantInv, Seconds, Instant, ChainInv, RowInv, UniqueInv, ResultInv, CodeInv, CapacityInv;
    var (t, r) := Decide(s, id, approver, now);
    UnchangedIsSound(s, r);
    InvParts(s);
    if t != s {
      OneGrantMoves(s, id, t.grants[id]);
      MovedIsSound(s, t, r);
    }
  }

  lemma NoGrantMoves(s: Store)
    requires GrantInv(s)
    ensures GrantsMove(s, s)
  {
    forall i | i in s.grants ensures GrantMoves(s, s.grants[i], s.grants[i]) {
      assert GrantShape(s, i);
    }
  }

  lemma ExpireGrantMoves(s: Store, id: Id, now: int)
    requires GrantInv(s) && id in s.grants
    ensures GrantsMove(s, ExpireGrant(s, id, now))
  {
    NoGrantMoves(s);
    hide GrantsMove;
    if s.grants[id].Active() {
      OneGrantMoves(s, id, s.grants[id].(status := Expired, updatedAt := Seconds(now)));
    }
  }

  lemma PassGateMoves(s: Store, id: Id, now: int)
    requires GrantInv(s) && id in s.grants && s.grants[id].status != Consumed
    ensures GrantsMove(s, PassGate(s, id, now).0)
  {
    assert GrantShape(s, id);
    NoGrantMoves(s);
    hide GrantsMove;
    var g := s.grants[id];
    OneGrantMoves(s, id, g.(nextPollAt := PollGate.Check(g.nextPollAt, g.interval, now).1, updatedAt := Seconds(now)));
  }

  lemma PollIsSound(s: Store, deviceCode: Id, server: Id, now: int)
    requires Inv(s)
    ensures var (t, r) := Poll(s, deviceCode, server, now); Sound(s, t, r)
  {
    hide Inv, Extends, Describes, GrantsMove, PassGate, ExpireGrant;
    var (t, r) := Poll(s, deviceCode, server, now);
    UnchangedIsSound(s, r);
    var found := GrantOfCode(s.grants, deviceCode);
    if found.Some? && s.grants[found.value].Active() {
      assert GrantInv(s) by { InvParts(s); }
      ExpireGrantMoves(s, found.value, now);
      PassGateMoves(s, found.value, now);
      if t != s { MovedIsSound(s, t, r); }
    }
  }

  lemma IssueFirstIsSound(s: Store, id: Id, key: Id, p: Policy, q: ExchangeRequest, draw: Draw, now: int)
    requires Inv(s) && p.Valid() && id in s.grants && s.grants[id].status == Approved
    requires s.grants[id].server == p.server && s.grants[id].deviceCode == q.deviceCode
    ensures var (t, r) := IssueFirst(s, id, key, p, q, draw, now); Sound(s, t, r)
  {
    hide Inv, Extends, Describes, FirstCollides;
    var (t, r) := IssueFirst(s, id, key, p, q, draw, now);
    if r.Issued? {
      assert IssueResult(s, id, key, p, q, draw, now, t, r.credentials);
      hide IssueFirst, IssueResult;
      assert RowInv(s) by { InvParts(s); }
      IssueKeepsInv(s, id, key, p, q, draw, now, t, r.credentials);
      IssueExtends(s, id, key, p, q, draw, now, t, r.credentials);
    } else {
      UnchangedIsSound(s, r);
    }
  }

  /** A stored exchange result that can be opened is the one the rows describe. */
  lemma RecoverExchangeIsSound(s: Store, id: Id, key: Id, p: Policy, q: ExchangeRequest, now: int)
    requires GrantInv(s) && id in s.grants
    ensures var r := RecoverExchange(s.grants[id], id, key, p, q, now); r.Issued? ==> Describes(s, r.credentials)
  {
    assert ExchangeResult(s, id);
  }

  lemma ExchangeIsSound(s: Store, key: Id, p: Policy, q: ExchangeRequest, draw: Draw, now: int)
    requires Inv(s)
    ensures var (t, r) := Exchange(s, key, p, q, draw, now); Sound(s, t, r)
  {
    hide Inv, Extends, Describes, GrantsMove, IssueFirst, ExpireGrant, RecoverExchange;
    var (t, r) := Exchange(s, key, p, q, draw, now);
    var found := GrantOfCode(s.grants, q.deviceCode);
    ExtendsIsReflexive(s);
    if !p.Valid() || found.None? { return; }
    var id := found.value;
    var g := s.grants[id];
    assert GrantInv(s) by { InvParts(s); }
    RecoverExchangeIsSound(s, id, key, p, q, now);
    if g.status == Consumed { return; }
    ExpireGrantMoves(s, id, now);
    PassGateMoves(s, id, now);
    GrantsMoveKeepsInv(s, ExpireGrant(s, id, now));
    var (passed, verdict) := PassGate(s, id, now);
    GrantsMoveKeepsInv(s, passed);
    if g.server == p.server && g.status == Approved {
      IssueFirstIsSound(passed, id, key, p, q, draw, now);
      ExtendsIsTransitive(s, passed, IssueFirst(passed, id, key, p, q, draw, now).0);
    }
  }

  lemma RevokeRowsFades(s: Store, f: Id)
    requires f in s.families
    ensures Fades(s, RevokeRows(s, f))
  {
  }

  lemma CondemnFades(s: Store, k: Slot, result: Ciphertext)
    requires k in s.rotations && k.family in s.families && ResultFades(s.rotations[k].result, result)
    ensures Fades(s, CondemnRotation(s, k, result))
  {
    RevokeRowsFades(s, k.family);
  }

  /** A stored rotation result that can be opened is the one the rows describe. */
  lemma RecoverRotationIsSound(s: Store, k: Slot, key: Id, q: RotateRequest, now: int)
    requires Inv(s) && k in s.rotations && k.family in s.families
    ensures var (t, r) := RecoverRotation(s, k, key, q, now); Sound(s, t, r)
  {
    hide Inv, Extends, Describes, Fades, CondemnRotation;
    var (t, r) := RecoverRotation(s, k, key, q, now);
    if r.Issued? {
      ExtendsIsReflexive(s);
      assert ResultInv(s) by { InvParts(s); }
      assert RotationResult(s, k, s.rotations[k].result);
    } else {
      CondemnFades(s, k, s.rotations[k].result);
      CondemnFades(s, k, Blank);
      FadedIsSound(s, t, r);
    }
  }

  lemma ExpireRefreshFades(s: Store, k: Slot)
    requires k in s.refreshes && s.refreshes[k].status == RefreshActive
    ensures Fades(s, s.(refreshes := s.refreshes[k := s.refreshes[k].(status := RefreshExpired)]))
  {
  }

  lemma MintNextIsSound(s: Store, k: Slot, key: Id, p: Policy, q: RotateRequest, draw: Draw, now: int)
    requires Inv(s) && k in s.refreshes && Joined(s, k) && s.refreshes[k].token == q.token
    requires s.families[k.family].server == p.server && s.families[k.family].active
    ensures var (t, r) := MintNext(s, k, key, p, q, draw, now); Sound(s, t, r)
  {
    hide Inv, Extends, Describes, Fades, Minted, NextCredentials, SlotCollides, TransactionUsed;
    var (t, r) := MintNext(s, k, key, p, q, draw, now);
    if r.Issued? {
      assert MintReady(s, k, p, q, draw, now);
      MintKeepsInv(s, k, key, p, q, draw, now);
      assert RowInv(s) by { InvParts(s); }
      MintDescribes(s, k, key, p, q, draw, now);
    } else if t == s {
      UnchangedIsSound(s, r);
    } else {
      ExpireRefreshFades(s, k);
      FadedIsSound(s, t, r);
    }
  }

  lemma RotateIsSound(s: Store, key: Id, p: Policy, q: RotateRequest, draw: Draw, now: int)
    requires Inv(s)
    ensures var (t, r) := Rotate(s, key, p, q, draw, now); Sound(s, t, r)
  {
    hide Inv, Extends, Describes, RecoverRotation, MintNext, Sound;
    var (t, r) := Rotate(s, key, p, q, draw, now);
    var found := SlotOfRefresh(s.refreshes, q.token);
    if p.Valid() && q.server == p.server && q.generation >= 0 && found.Some? && RotateRefusal(s, found.value, q).None? {
      var k := found.value;
      if k in s.rotations {
        RecoverRotationIsSound(s, k, key, q, now);
      } else {
        MintNextIsSound(s, k, key, p, q, draw, now);
      }
    } else {
      UnchangedIsSound(s, r);
    }
  }

  lemma ExpireAccessFades(s: Store, k: Slot)
    requires k in s.accesses
    ensures Fades(s, s.(accesses := s.accesses[k := s.accesses[k].(status := SessionExpired)]))
  {
  }

  lemma AuthenticateIsSound(s: Store, token: Id, server: Id, now: int)
    requires Inv(s)
    ensures var (t, r) := Authenticate(s, token, server, now); Sound(s, t, r)
  {
    hide Inv, Extends, Describes, Fades;
    var (t, r) := Authenticate(s, token, server, now);
    if t == s {
      UnchangedIsSound(s, r);
    } else {
      ExpireAccessFades(s, SlotOfAccess(s.accesses, token).value);
      FadedIsSound(s, t, r);
    }
  }

  lemma RevokeIsSound(s: Store, user: Id, family: Id)
    requires Inv(s)
    ensures var (t, r) := Revoke(s, user, family); Sound(s, t, r)
  {
    hide Inv, Extends, Describes, Fades, RevokeRows;
    var (t, r) := Revoke(s, user, family);
    if r == Done {
      RevokeRowsFades(s, family);
      FadedIsSound(s, t, r);
    } else {
      UnchangedIsSound(s, r);
    }
  }

  lemma SweepRotationsFades(s: Store, slots: set<Slot>, now: int)
    ensures Fades(s, SweepRotations(s, slots, now))
  {
  }

  lemma SweepsAreSound(s: Store, slots: set<Slot>, ids: set<Id>, now: int)
    requires Inv(s)
    ensures Sound(s, SweepRotations(s, slots, now), Swept)
    ensures Sound(s, SweepResults(s, now), Swept)
    ensures Sound(s, SweepGrants(s, ids, now), Swept)
  {
    hide Inv, Extends, Describes, Fades, GrantsMove, SweepRotations, SweepResults, SweepGrants;
    SweepRotationsFades(s, slots, now);
    FadedIsSound(s, SweepRotations(s, slots, now), Swept);
    assert GrantInv(s) by { InvParts(s); }
    SweepResultsMoves(s, now);
    SweepGrantsMoves(s, ids, now);
    MovedIsSound(s, SweepResults(s, now), Swept);
    MovedIsSound(s, SweepGrants(s, ids, now), Swept);
  }

  lemma SweepResultsMoves(s: Store, now: int)
    requires GrantInv(s)
    ensures GrantsMove(s, SweepResults(s, now))
  {
    forall i | i in s.grants ensures GrantMoves(s, s.grants[i], SweepResults(s, now).grants[i]) {
      assert GrantShape(s, i);
    }
  }

  lemma SweepGrantsMoves(s: Store, ids: set<Id>, now: int)
    requires GrantInv(s)
    ensures GrantsMove(s, SweepGrants(s, ids, now))
  {
    var t := SweepGrants(s, ids, now);
    forall i | i in t.grants ensures i in s.grants && GrantMoves(s, s.grants[i], t.grants[i]) {
      assert GrantShape(s, i);
    }
  }

  lemma AccountCallsFade(s: Store, user: Id, keep: Option<Id>, active: bool, device: Id)
    ensures Fades(s, ChangePassword(s, user, keep))
    ensures Fades(s, s.(users := s.users[user := active]))
    ensures device in s.devices ==> Fades(s, s.(devices := s.devices[device := s.devices[device].(active := false)]))
  {
  }

  lemma AccountCallsAreSound(s: Store, call: Call, now: int)
    requires Inv(s) && (call.CallChangePassword? || call.CallSetUser? || call.CallRevokeDevice?)
    ensures var (t, r) := Transact(s, call, now); Sound(s, t, r)
  {
    hide Inv, Extends, Describes, Fades;
    var (t, r) := Transact(s, call, now);
    match call {
      case CallChangePassword(user, keep) => AccountCallsFade(s, user, keep, true, 0);
      case CallSetUser(user, active) => AccountCallsFade(s, user, None, active, 0);
      case CallRevokeDevice(device) => AccountCallsFade(s, 0, None, true, device);
    }
    if t == s {
      UnchangedIsSound(s, r);
    } else {
      FadedIsSound(s, t, r);
    }
  }

  lemma TransactIsSound(s: Store, call: Call, now: int)
    requires Inv(s)
    ensures var (t, r) := Transact(s, call, now); Sound(s, t, r)
  {
    hide Inv, Extends, Describes, Sound, Start, ExpireByCode, Review, Decide, Poll, Exchange, Rotate, Authenticate, Revoke;
    match call
    case CallStart(p, q, draws) => StartIsSound(s, p, q, draws, now);
    case CallExpireCode(code, server) => ExpireByCodeIsSound(s, code, server, now);
    case CallReview(code, server) => ReviewIsSound(s, code, server);
    case CallDecide(id, approver) => DecideIsSound(s, id, approver, now);
    case CallPoll(code, server) => PollIsSound(s, code, server, now);
    case CallExchange(key, p, q, draw) => ExchangeIsSound(s, key, p, q, draw, now);
    case CallRotate(key, p, q, draw) => RotateIsSound(s, key, p, q, draw, now);
    case CallAuthenticate(token, server) => AuthenticateIsSound(s, token, server, now);
    case CallRevoke(user, family) => RevokeIsSound(s, user, family);
    case CallChangePassword(_, _) => AccountCallsAreSound(s, call, now);
    case CallSetUser(_, _) => AccountCallsAreSound(s, call, now);
    case CallRevokeDevice(_) => AccountCallsAreSound(s, call, now);
    case CallSweepRotations(slots) => SweepsAreSound(s, slots, {}, now);
    case CallSweepResults => SweepsAreSound(s, {}, {}, now);
    case CallSweepGrants(ids) => SweepsAreSound(s, {}, ids, now);
  }

  lemma StepIsSound(s: Store, call: Call, now: int)
    requires Inv(s)
    ensures var (t, r) := Step(s, call, now); Sound(s, t, r)
  {
    hide Inv, Extends, Describes, Transact;
    TransactIsSound(s, call, now);
    ExtendsIsReflexive(s);
  }
}
