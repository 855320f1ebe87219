/**
 What the service grants: exactly when a first exchange and a rotation succeed, that a
 retry within its window always recovers, and that current credentials let their user in.
 */
module DeviceAvailability {
  import opened Wrappers
  import opened Clock
  import opened DeviceTables
  import opened DeviceTransactions
  import opened DeviceInvariant
  import opened DeviceSteps
  import opened DeviceRows
  import opened DeviceRuns
  import opened DeviceConsent
  import PollGate

  // First exchanges and rotations.

  /** A valid policy of the grant's server, the right verifier, an approval by an account that is active, and a poll in time. */
  ghost predicate MayExchange(s: Store, id: Id, p: Policy, q: ExchangeRequest, now: int)
    requires id in s.grants
  {
    var g := s.grants[id];
    && p.Valid() && g.server == p.server && g.challenge == S256(q.verifier)
    && g.status == Approved && now < Instant(g.expiresAt) && g.nextPollAt <= Seconds(now)
    && g.approvedUser.Some? && UserActive(s, g.approvedUser.value)
  }

  /** The draws are new, and so is the transaction id; a known installation is not revoked. */
  ghost predicate Insertable(s: Store, id: Id, p: Policy, q: ExchangeRequest, draw: Draw)
    requires id in s.grants && s.grants[id].approvedUser.Some?
  {
    var device := DeviceOf(s.devices, s.grants[id].approvedUser.value, p.server, s.grants[id].installation);
    && !FirstCollides(s, id, q.transaction, draw)
    && if device.Some? then s.devices[device.value].active else draw.device !in s.devices
  }

  lemma IssueIff(s: Store, id: Id, key: Id, p: Policy, q: ExchangeRequest, draw: Draw, now: int)
    requires id in s.grants
    ensures IssueFirst(s, id, key, p, q, draw, now).1.Issued?
      <==> s.grants[id].approvedUser.Some? && UserActive(s, s.grants[id].approvedUser.value) && Insertable(s, id, p, q, draw)
  {
    hide FirstCollides, Seconds, Span, FirstCredentials, NewFamily;
  }

  lemma GateKeepsInsertable(s: Store, id: Id, p: Policy, q: ExchangeRequest, draw: Draw, now: int)
    requires id in s.grants && s.grants[id].approvedUser.Some?
    ensures var t := PassGate(s, id, now).0;
      id in t.grants && t.grants[id].approvedUser == s.grants[id].approvedUser && t.users == s.users
      && (Insertable(t, id, p, q, draw) <==> Insertable(s, id, p, q, draw))
  {
    PassGateKeepsTables(s, id, now);
    hide PassGate, SlotCollides, HasFamily;
    var t := PassGate(s, id, now).0;
    assert t.grants.Keys == s.grants.Keys by { PassGateKeys(s, id, now); }
    assert forall other :: other in s.grants && other != id ==> t.grants[other] == s.grants[other] by { PassGateKeys(s, id, now); }
    assert SlotCollides(t, Slot(draw.family, 0), draw) == SlotCollides(s, Slot(draw.family, 0), draw) by { SameSlotCollision(s, t, Slot(draw.family, 0), draw); }
  }

  lemma PassGateKeys(s: Store, id: Id, now: int)
    requires id in s.grants
    ensures var t := PassGate(s, id, now).0;
      t.grants.Keys == s.grants.Keys && forall other :: other in s.grants && other != id ==> t.grants[other] == s.grants[other]
  {
    hide Seconds, PollGate.Check;
  }

  /** The exchange of a grant that nobody has exchanged yet succeeds exactly when it may and its rows can be inserted. */
  lemma FirstExchangeIff(s: Store, id: Id, key: Id, p: Policy, q: ExchangeRequest, draw: Draw, now: int)
    requires Inv(s) && id in s.grants && s.grants[id].deviceCode == q.deviceCode && s.grants[id].status != Consumed
    ensures Exchange(s, key, p, q, draw, now).1.Issued? <==> MayExchange(s, id, p, q, now) && Insertable(s, id, p, q, draw)
  {
    hide Inv, IssueFirst, ExpireGrant, PassGate, Insertable;
    assert GrantOfCode(s.grants, q.deviceCode) == Some(id) by { CodeIsUnique(s, id); }
    GateAdmits(s, id, now);
    if s.grants[id].status == Approved {
      assert s.grants[id].approvedUser.Some? by { ApprovedHasUser(s, id); }
      GateKeepsInsertable(s, id, p, q, draw, now);
      IssueIff(PassGate(s, id, now).0, id, key, p, q, draw, now);
    }
  }

  lemma CodeIsUnique(s: Store, id: Id)
    requires Inv(s) && id in s.grants
    ensures GrantOfCode(s.grants, s.grants[id].deviceCode) == Some(id)
  {
    assert CodeInv(s.grants) by { InvParts(s); }
    hide Inv;
  }

  lemma ApprovedHasUser(s: Store, id: Id)
    requires Inv(s) && id in s.grants && s.grants[id].status == Approved
    ensures s.grants[id].approvedUser.Some?
  {
    assert GrantInv(s) by { InvParts(s); }
    hide Inv;
    assert GrantShape(s, id);
  }

  lemma GateAdmits(s: Store, id: Id, now: int)
    requires id in s.grants
    ensures PassGate(s, id, now).1.Admitted? <==> s.grants[id].nextPollAt <= Seconds(now)
  {
    StoredComparison(s.grants[id].nextPollAt, now);
  }

  /** A live, unexpired refresh token of an alive family, presented for the right device, server and generation, with new draws. */
  ghost predicate MayRotate(s: Store, k: Slot, p: Policy, q: RotateRequest, draw: Draw, now: int)
    requires k in s.refreshes
  {
    && p.Valid() && q.server == p.server && q.generation == k.generation && Alive(s, k.family)
    && s.families[k.family].device == q.device && s.families[k.family].server == q.server
    && s.refreshes[k].status == RefreshActive && now < Instant(s.refreshes[k].expiresAt)
    && !TransactionUsed(s.rotations, q.transaction) && !SlotCollides(s, Next(k), draw)
  }

  lemma RefreshParts(s: Store, k: Slot)
    requires Inv(s) && k in s.refreshes
    ensures SlotOfRefresh(s.refreshes, s.refreshes[k].token) == Some(k) && k.family in s.families && k.generation >= 0
    ensures s.families[k.family].device in s.devices && s.families[k.family].user in s.users
    ensures s.families[k.family].active ==> s.families[k.family].version == s.devices[s.families[k.family].device].version
    ensures s.refreshes[k].expiresAt <= s.families[k.family].absoluteExpiresAt
  {
    assert ChainInv(s) && RowInv(s) && UniqueInv(s) by { InvParts(s); }
    hide Inv, HasChain;
    var n := ChainOf(s, k.family);
    assert Slot(k.family, k.generation) in s.refreshes;
  }

  /** A refresh token that has not been used yet rotates exactly when it may. */
  lemma FirstRotationIff(s: Store, k: Slot, key: Id, p: Policy, q: RotateRequest, draw: Draw, now: int)
    requires Inv(s) && k in s.refreshes && s.refreshes[k].token == q.token && k !in s.rotations
    ensures Rotate(s, key, p, q, draw, now).1.Issued? <==> MayRotate(s, k, p, q, draw, now)
  {
    hide Inv, TransactionUsed, SlotCollides, NextCredentials, Minted, CondemnRotation;
    RefreshParts(s, k);
  }

  // Retries.

  /** Nothing erases a stored rotation result before it expires. */
  lemma StepKeepsRotation(s: Store, call: Call, now: int, k: Slot)
    requires Inv(s) && k in s.rotations && now < Instant(s.rotations[k].resultExpiresAt)
    ensures var t := Step(s, call, now).0; k in t.rotations && t.rotations[k].result == s.rotations[k].result
  {
    hide Inv, Start, ExpireByCode, Review, Decide, Poll, Exchange, Rotate, Authenticate, Revoke, ChangePassword, SweepResults, SweepGrants;
    match call
    case CallStart(p, q, draws) => OthersKeepRotations(s, call, now);
    case CallExpireCode(_, _) => OthersKeepRotations(s, call, now);
    case CallReview(_, _) => OthersKeepRotations(s, call, now);
    case CallDecide(_, _) => OthersKeepRotations(s, call, now);
    case CallPoll(_, _) => OthersKeepRotations(s, call, now);
    case CallExchange(key, p, q, draw) => ExchangeKeepsRotations(s, key, p, q, draw, now);
    case CallRotate(key, p, q, draw) => RotateKeepsRotation(s, key, p, q, draw, now, k);
    case CallSweepRotations(slots) => StoredComparison(s.rotations[k].resultExpiresAt, now);
    case _ => OthersKeepRotations(s, call, now);
  }

  lemma OthersKeepRotations(s: Store, call: Call, now: int)
    requires !call.CallExchange? && !call.CallRotate? && !call.CallSweepRotations?
    ensures Transact(s, call, now).0.rotations == s.rotations
  {
    hide PassGate, ExpireGrant, DropRetained, ExpireOverdue, FirstFree, ActiveGrants, NewGrant, Seconds, Instant;
    if call.CallPoll? {
      var id := GrantOfCode(s.grants, call.deviceCode);
      if id.Some? { GateKeepsRotations(s, id.value, now); }
    }
  }

  lemma GateKeepsRotations(s: Store, id: Id, now: int)
    requires id in s.grants
    ensures PassGate(s, id, now).0.rotations == s.rotations && ExpireGrant(s, id, now).rotations == s.rotations
    ensures id in PassGate(s, id, now).0.grants
  {
    hide Seconds, PollGate.Check;
  }

  lemma ExchangeKeepsRotations(s: Store, key: Id, p: Policy, q: ExchangeRequest, draw: Draw, now: int)
    ensures Exchange(s, key, p, q, draw, now).0.rotations == s.rotations
  {
    hide PassGate, ExpireGrant, Seconds, Instant, FirstCollides, RecoverExchange, DeviceOf;
    var id := GrantOfCode(s.grants, q.deviceCode);
    if id.Some? { GateKeepsRotations(s, id.value, now); }
  }

  lemma RotateKeepsRotation(s: Store, key: Id, p: Policy, q: RotateRequest, draw: Draw, now: int, k: Slot)
    requires k in s.rotations && now < Instant(s.rotations[k].resultExpiresAt)
    ensures var t := Rotate(s, key, p, q, draw, now).0; k in t.rotations && t.rotations[k].result == s.rotations[k].result
  {
    hide TransactionUsed, SlotCollides, NextCredentials, RevokeRows, Seconds, Span;
  }

  /** The clock readings of steps `i` to `j` are not after that of step `j`. */
  ghost predicate NoLaterThan(run: seq<Timed>, i: nat, j: nat) {
    j < |run| && forall k :: i <= k <= j ==> run[k].now <= run[j].now
  }

  /** What a rotation leaves for its retries. */
  ghost predicate Recoverable(s: Store, k: Slot, key: Id, q: RotateRequest, c: Credentials, expiry: int) {
    && k in s.refreshes && s.refreshes[k].token == q.token && k.family in s.families
    && k.generation == q.generation && s.families[k.family].device == q.device && s.families[k.family].server == q.server
    && k in s.rotations && s.rotations[k].transaction == q.transaction && s.rotations[k].resultExpiresAt >= expiry
    && s.rotations[k].result == Sealed(key, AadOf(s, k, q.transaction, q.token), c)
  }

  lemma RecoverableLasts(s: Store, call: Call, now: int, k: Slot, key: Id, q: RotateRequest, c: Credentials, expiry: int)
    requires Inv(s) && Recoverable(s, k, key, q, c, expiry) && now < Instant(expiry)
    ensures Recoverable(Step(s, call, now).0, k, key, q, c, expiry)
  {
    hide Inv, Step, Describes;
    StepIsSound(s, call, now);
    StepKeepsRotation(s, call, now, k);
  }

  /** After a rotation answered from slot `k`, its record is there to answer again. */
  ghost predicate LeavesRecovery(s: Store, t: Store, k: Slot, key: Id, p: Policy, q: RotateRequest, c: Credentials, now: int) {
    && k in t.rotations && Recoverable(t, k, key, q, c, t.rotations[k].resultExpiresAt)
    && c.family == k.family && c.generation == k.generation + 1
    && (k !in s.rotations ==> t.rotations[k].resultExpiresAt == Seconds(now) + p.idempotencyTtl)
  }

  lemma MintLeavesRecovery(s: Store, k: Slot, key: Id, p: Policy, q: RotateRequest, draw: Draw, now: int)
    requires k in s.refreshes && Joined(s, k) && k !in s.rotations && s.refreshes[k].token == q.token && RotateRefusal(s, k, q).None?
    ensures var (t, r) := MintNext(s, k, key, p, q, draw, now); r.Issued? ==> LeavesRecovery(s, t, k, key, p, q, r.credentials, now)
  {
    CutCommutesWithSpan(now, p.idempotencyTtl);
    hide TransactionUsed, SlotCollides, Seconds, Instant;
  }

  lemma RecoveryLeavesRecovery(s: Store, k: Slot, key: Id, p: Policy, q: RotateRequest, now: int)
    requires ResultInv(s) && k in s.refreshes && k in s.rotations && Joined(s, k) && s.refreshes[k].token == q.token && RotateRefusal(s, k, q).None?
    ensures var (t, r) := RecoverRotation(s, k, key, q, now); r.Issued? ==> LeavesRecovery(s, t, k, key, p, q, r.credentials, now)
  {
    hide CondemnRotation, Describes, Instant, Seconds;
    assert RotationResult(s, k, s.rotations[k].result);
  }

  lemma RotationLeavesRecovery(s: Store, key: Id, p: Policy, q: RotateRequest, draw: Draw, now: int, k: Slot)
    requires Inv(s) && Rotate(s, key, p, q, draw, now).1.Issued? && SlotOfRefresh(s.refreshes, q.token) == Some(k)
    ensures LeavesRecovery(s, Rotate(s, key, p, q, draw, now).0, k, key, p, q, Rotate(s, key, p, q, draw, now).1.credentials, now)
  {
    hide Inv, ResultInv, MintNext, RecoverRotation, LeavesRecovery, RotateRefusal;
    InvParts(s);
    RefusalJoins(s, k, q);
    if k in s.rotations {
      RecoveryLeavesRecovery(s, k, key, p, q, now);
    } else if RotateRefusal(s, k, q).None? {
      MintLeavesRecovery(s, k, key, p, q, draw, now);
    }
  }

  lemma RefusalJoins(s: Store, k: Slot, q: RotateRequest)
    ensures RotateRefusal(s, k, q).None? ==> Joined(s, k)
  {
  }

  lemma RecoverableRecovers(s: Store, k: Slot, key: Id, p: Policy, q: RotateRequest, draw: Draw, now: int, c: Credentials, expiry: int)
    requires Inv(s) && Recoverable(s, k, key, q, c, expiry) && now < Instant(expiry)
    requires p.Valid() && q.server == p.server && q.generation >= 0 && Alive(s, k.family)
    ensures Step(s, CallRotate(key, p, q, draw), now).1 == Issued(c)
  {
    hide Inv, MintNext, CondemnRotation;
    RefreshParts(s, k);
  }

  lemma {:induction false} RecoverableAt(run: seq<Timed>, i: nat, j: nat, k: Slot, key: Id, q: RotateRequest, c: Credentials, expiry: int, now: int)
    requires i <= j <= |run| && Recoverable(At(run, i), k, key, q, c, expiry)
    requires now < Instant(expiry) && forall l :: i <= l < j ==> run[l].now <= now
    ensures Recoverable(At(run, j), k, key, q, c, expiry)
    decreases j
  {
    hide Inv, Step, Recoverable;
    if i < j {
      RecoverableAt(run, i, j - 1, k, key, q, c, expiry, now);
      Reachable(run, j - 1);
      RecoverableLasts(At(run, j - 1), run[j - 1].call, run[j - 1].now, k, key, q, c, expiry);
    }
  }

  /** When the stored result of the rotation at step `i` runs out. */
  ghost function WindowEnd(run: seq<Timed>, i: nat): int
    requires i < |run| && OutcomeAt(run, i).Issued?
    requires Slot(OutcomeAt(run, i).credentials.family, OutcomeAt(run, i).credentials.generation - 1) in At(run, i + 1).rotations
  {
    At(run, i + 1).rotations[Slot(OutcomeAt(run, i).credentials.family, OutcomeAt(run, i).credentials.generation - 1)].resultExpiresAt
  }

  lemma TokenExists(run: seq<Timed>, i: nat)
    requires i < |run| && run[i].call.CallRotate? && OutcomeAt(run, i).Issued?
    ensures SlotOfRefresh(At(run, i).refreshes, run[i].call.rotate.token).Some?
  {
    hide At, RecoverRotation, MintNext, RotateRefusal;
  }

  lemma RotationIsRecorded(run: seq<Timed>, i: nat)
    requires i < |run| && run[i].call.CallRotate? && OutcomeAt(run, i).Issued?
    ensures var c := OutcomeAt(run, i).credentials;
      var k := Slot(c.family, c.generation - 1);
      k in At(run, i + 1).rotations && Recoverable(At(run, i + 1), k, run[i].call.key, run[i].call.rotate, c, WindowEnd(run, i))
      && (k !in At(run, i).rotations ==> WindowEnd(run, i) == Seconds(run[i].now) + run[i].call.policy.idempotencyTtl)
  {
    hide Inv, Rotate, Recoverable;
    Reachable(run, i);
    var call := run[i].call;
    TokenExists(run, i);
    RotationLeavesRecovery(At(run, i), call.key, call.policy, call.rotate, call.draw, run[i].now, SlotOfRefresh(At(run, i).refreshes, call.rotate.token).value);
    assert At(run, i + 1) == Step(At(run, i), call, run[i].now).0;
  }

  /**
   Idempotence. A rotation that succeeded can be repeated until its window ends, in the
   idempotency time after it was first made, by anyone with the same request and key: whatever
   happened in between, sweeps included, as long as account, device and family are alive the
   answer is the same credentials.
   */
  lemma RetryRecovers(run: seq<Timed>, i: nat, j: nat)
    requires i < j && NoLaterThan(run, i, j) && run[i].call.CallRotate? && OutcomeAt(run, i).Issued?
    requires run[j].call.CallRotate? && run[j].call.key == run[i].call.key && run[j].call.rotate == run[i].call.rotate
    requires run[j].call.policy.Valid() && run[j].call.policy.server == run[i].call.policy.server
    requires Alive(At(run, j), OutcomeAt(run, i).credentials.family)
    ensures Slot(OutcomeAt(run, i).credentials.family, OutcomeAt(run, i).credentials.generation - 1) in At(run, i + 1).rotations
    ensures run[j].now < Instant(WindowEnd(run, i)) ==> OutcomeAt(run, j) == OutcomeAt(run, i)
  {
    hide Inv, Step, Recoverable, Alive;
    RotationIsRecorded(run, i);
    RequestNamesServer(run, i);
    var c := OutcomeAt(run, i).credentials;
    var k := Slot(c.family, c.generation - 1);
    var call := run[j].call;
    if run[j].now < Instant(WindowEnd(run, i)) {
      RecoverableAt(run, i + 1, j, k, call.key, call.rotate, c, WindowEnd(run, i), run[j].now);
      Reachable(run, j);
      RecoverableRecovers(At(run, j), k, call.key, call.policy, call.rotate, call.draw, run[j].now, c, WindowEnd(run, i));
    }
  }

  lemma RequestNamesServer(run: seq<Timed>, i: nat)
    requires i < |run| && run[i].call.CallRotate? && OutcomeAt(run, i).Issued?
    ensures run[i].call.rotate.server == run[i].call.policy.server && run[i].call.rotate.generation >= 0
  {
    hide RecoverRotation, MintNext, RotateRefusal, At;
  }

  // Retries of an exchange.

  /** Grant `id` is consumed, and what its exchange gave out is stored until `expiry`. */
  ghost predicate Kept(grants: map<Id, Grant>, id: Id, key: Id, q: ExchangeRequest, c: Credentials, expiry: int) {
    && id in grants && grants[id].status == Consumed && grants[id].deviceCode == q.deviceCode && grants[id].challenge == S256(q.verifier)
    && grants[id].transaction == Some(q.transaction) && grants[id].resultExpiresAt == Some(expiry)
    && grants[id].result == Sealed(key, ExchangeAad(id, grants[id].server, q.transaction, q.deviceCode), c)
  }

  lemma ReadyKeeps(grants: map<Id, Grant>, families: map<Id, Family>, server: Id, now: int, id: Id)
    requires id in grants && grants[id].status == Consumed
    ensures var ready := DropRetained(ExpireOverdue(grants, server, now), families, server, now); id in ready && ready[id] == grants[id]
  {
    hide HasFamily, Seconds;
  }

  lemma StartKeeps(s: Store, p: Policy, q: StartRequest, draws: seq<GrantDraw>, now: int, id: Id)
    requires id in s.grants && s.grants[id].status == Consumed
    ensures var t := Start(s, p, q, draws, now).0; id in t.grants && t.grants[id] == s.grants[id]
  {
    hide ActiveGrants, DropRetained, ExpireOverdue, NewGrant, FirstFree, Seconds, Span;
    ReadyKeeps(s.grants, s.families, p.server, now, id);
    var ready := DropRetained(ExpireOverdue(s.grants, p.server, now), s.families, p.server, now);
    FirstFreeIsFree(ready, draws, 0);
    var d := FirstFree(ready, draws, 0);
    if d.Some? { assert d.value.id != id by { FreeIsNew(ready, d.value, id); } }
  }

  lemma FreeIsNew(grants: map<Id, Grant>, d: GrantDraw, id: Id)
    requires !GrantCollides(grants, d) && id in grants
    ensures d.id != id
  {
  }

  lemma ReviewKeeps(s: Store, code: Id, server: Id, now: int, id: Id)
    requires id in s.grants && s.grants[id].status == Consumed
    ensures var t := ExpireByCode(s, code, server, now); id in t.grants && t.grants[id] == s.grants[id]
  {
    hide Seconds;
  }

  lemma DecideKeeps(s: Store, grant: Id, approver: Option<Id>, now: int, id: Id)
    requires id in s.grants && s.grants[id].status == Consumed
    ensures var t := Decide(s, grant, approver, now).0; id in t.grants && t.grants[id] == s.grants[id]
  {
    hide Instant, Seconds, UserActive;
  }

  lemma PollKeeps(s: Store, code: Id, server: Id, now: int, id: Id)
    requires id in s.grants && s.grants[id].status == Consumed
    ensures var t := Poll(s, code, server, now).0; id in t.grants && t.grants[id] == s.grants[id]
  {
    hide PassGate, ExpireGrant, Instant, Seconds;
    var g := GrantOfCode(s.grants, code);
    if g.Some? {
      PassGateKeys(s, g.value, now);
      ExpireKeys(s, g.value, now);
    }
  }

  lemma ExchangeKeeps(s: Store, key: Id, p: Policy, q: ExchangeRequest, draw: Draw, now: int, id: Id)
    requires id in s.grants && s.grants[id].status == Consumed
    ensures var t := Exchange(s, key, p, q, draw, now).0; id in t.grants && t.grants[id] == s.grants[id]
  {
    hide PassGate, ExpireGrant, Instant, Seconds, RecoverExchange, FirstCollides, DeviceOf;
    var g := GrantOfCode(s.grants, q.deviceCode);
    if g.Some? {
      PassGateKeys(s, g.value, now);
      ExpireKeys(s, g.value, now);
    }
  }

  lemma ExpireKeys(s: Store, id: Id, now: int)
    requires id in s.grants
    ensures var t := ExpireGrant(s, id, now);
      t.grants.Keys == s.grants.Keys && forall other :: other in s.grants && other != id ==> t.grants[other] == s.grants[other]
  {
    hide Seconds;
  }

  lemma SweepsKeep(s: Store, call: Call, now: int, id: Id)
    requires id in s.grants && s.grants[id].status == Consumed && s.grants[id].resultExpiresAt.Some? && now < Instant(s.grants[id].resultExpiresAt.value)
    requires call.CallSweepResults? || call.CallSweepGrants? || call.CallSweepRotations?
    ensures var t := Transact(s, call, now).0; id in t.grants && t.grants[id] == s.grants[id]
  {
    StoredComparison(s.grants[id].resultExpiresAt.value, now);
    hide HasFamily, Seconds, Instant;
  }

  lemma StepKeepsExchange(s: Store, call: Call, now: int, id: Id, key: Id, q: ExchangeRequest, c: Credentials, expiry: int)
    requires Kept(s.grants, id, key, q, c, expiry) && now < Instant(expiry)
    ensures Kept(Step(s, call, now).0.grants, id, key, q, c, expiry)
  {
    hide Start, ExpireByCode, Review, Decide, Poll, Exchange, Rotate, Authenticate, Revoke, ChangePassword, SweepResults, SweepGrants, Instant;
    match call
    case CallStart(p, r, draws) => StartKeeps(s, p, r, draws, now, id);
    case CallExpireCode(code, server) => ReviewKeeps(s, code, server, now, id);
    case CallReview(_, _) =>
    case CallDecide(grant, approver) => DecideKeeps(s, grant, approver, now, id);
    case CallPoll(code, server) => PollKeeps(s, code, server, now, id);
    case CallExchange(k, p, r, draw) => ExchangeKeeps(s, k, p, r, draw, now, id);
    case CallSweepResults => SweepsKeep(s, call, now, id);
    case CallSweepGrants(_) => SweepsKeep(s, call, now, id);
    case _ => QuietCallsLeaveGrants(s, call, now);
  }

  lemma ExchangeIsKept(s: Store, key: Id, p: Policy, q: ExchangeRequest, draw: Draw, now: int)
    requires Inv(s) && Exchange(s, key, p, q, draw, now).1.Issued?
    ensures var (t, r) := Exchange(s, key, p, q, draw, now);
      var id := GrantOfCode(s.grants, q.deviceCode).value;
      id in t.grants && t.grants[id].server == p.server && t.grants[id].resultExpiresAt.Some?
      && Kept(t.grants, id, key, q, r.credentials, t.grants[id].resultExpiresAt.value)
      && (s.grants[id].status != Consumed ==> t.grants[id].resultExpiresAt == Some(Seconds(now) + p.idempotencyTtl))
  {
    hide Inv, PassGate, ExpireGrant, FirstCollides, DeviceOf, Describes;
    var id := GrantOfCode(s.grants, q.deviceCode).value;
    CutCommutesWithSpan(now, p.idempotencyTtl);
    assert GrantInv(s) by { InvParts(s); }
    assert ExchangeResult(s, id);
    GateKeepsGrant(s, id, now);
    hide Seconds, Instant, GrantInv;
  }

  lemma GateKeepsGrant(s: Store, id: Id, now: int)
    requires id in s.grants
    ensures var t := PassGate(s, id, now).0;
      id in t.grants && t.grants[id].deviceCode == s.grants[id].deviceCode && t.grants[id].challenge == s.grants[id].challenge
      && t.grants[id].server == s.grants[id].server
  {
    hide Seconds, PollGate.Check;
  }

  lemma KeptRecovers(s: Store, id: Id, key: Id, p: Policy, q: ExchangeRequest, draw: Draw, now: int, c: Credentials, expiry: int)
    requires Inv(s) && Kept(s.grants, id, key, q, c, expiry) && now < Instant(expiry)
    requires p.Valid() && p.server == s.grants[id].server
    ensures Step(s, CallExchange(key, p, q, draw), now).1 == Issued(c)
  {
    hide Inv, ExchangeOpen;
    CodeIsUnique(s, id);
  }

  lemma {:induction false} KeptAt(run: seq<Timed>, i: nat, j: nat, id: Id, key: Id, q: ExchangeRequest, c: Credentials, expiry: int, now: int)
    requires i <= j <= |run| && Kept(At(run, i).grants, id, key, q, c, expiry)
    requires now < Instant(expiry) && forall l :: i <= l < j ==> run[l].now <= now
    ensures Kept(At(run, j).grants, id, key, q, c, expiry)
    decreases j
  {
    hide Step, Kept;
    if i < j {
      KeptAt(run, i, j - 1, id, key, q, c, expiry, now);
      StepKeepsExchange(At(run, j - 1), run[j - 1].call, run[j - 1].now, id, key, q, c, expiry);
    }
  }

  /** The grant of the exchange at step `i`, once it has been answered, and when its stored result runs out. */
  ghost predicate StoredUntil(run: seq<Timed>, i: nat, id: Id, expiry: int)
    requires i < |run| && run[i].call.CallExchange? && OutcomeAt(run, i).Issued?
  {
    && Kept(At(run, i + 1).grants, id, run[i].call.key, run[i].call.exchange, OutcomeAt(run, i).credentials, expiry)
    && At(run, i + 1).grants[id].server == run[i].call.policy.server
    && id in At(run, i).grants
    && (At(run, i).grants[id].status != Consumed ==> expiry == Seconds(run[i].now) + run[i].call.policy.idempotencyTtl)
  }

  lemma ExchangeIsStored(run: seq<Timed>, i: nat) returns (id: Id, expiry: int)
    requires i < |run| && run[i].call.CallExchange? && OutcomeAt(run, i).Issued?
    ensures StoredUntil(run, i, id, expiry)
  {
    hide Inv, Exchange, Kept, Seconds;
    var call := run[i].call;
    Reachable(run, i);
    CodeExists(run, i);
    ExchangeIsKept(At(run, i), call.key, call.policy, call.exchange, call.draw, run[i].now);
    assert At(run, i + 1) == Step(At(run, i), call, run[i].now).0;
    id := GrantOfCode(At(run, i).grants, call.exchange.deviceCode).value;
    expiry := At(run, i + 1).grants[id].resultExpiresAt.value;
  }

  /**
   An exchange that succeeded can be repeated until its stored result expires, which for the
   first one is the idempotency time after it, with the same answer, whatever happened in
   between.
   */
  lemma ExchangeRetryRecovers(run: seq<Timed>, i: nat, j: nat, id: Id, expiry: int)
    requires i < j && NoLaterThan(run, i, j) && run[i].call.CallExchange? && OutcomeAt(run, i).Issued?
    requires run[j].call.CallExchange? && run[j].call.key == run[i].call.key && run[j].call.exchange == run[i].call.exchange
    requires run[j].call.policy.Valid() && run[j].call.policy.server == run[i].call.policy.server
    requires StoredUntil(run, i, id, expiry) && run[j].now < Instant(expiry)
    ensures OutcomeAt(run, j) == OutcomeAt(run, i)
  {
    hide Inv, Step, At, Kept, Instant, Seconds;
    var call, c := run[j].call, OutcomeAt(run, i).credentials;
    KeptAt(run, i + 1, j, id, call.key, call.exchange, c, expiry, run[j].now);
    KeptNamesGrant(At(run, i + 1).grants, id, call.key, call.exchange, c, expiry);
    ServerLasts(run, i + 1, j, id);
    Reachable(run, j);
    KeptNamesGrant(At(run, j).grants, id, call.key, call.exchange, c, expiry);
    KeptRecovers(At(run, j), id, call.key, call.policy, call.exchange, call.draw, run[j].now, c, expiry);
  }

  lemma KeptNamesGrant(grants: map<Id, Grant>, id: Id, key: Id, q: ExchangeRequest, c: Credentials, expiry: int)
    requires Kept(grants, id, key, q, c, expiry)
    ensures id in grants && grants[id].status == Consumed
  {
  }

  lemma CodeExists(run: seq<Timed>, i: nat)
    requires i < |run| && run[i].call.CallExchange? && OutcomeAt(run, i).Issued?
    ensures GrantOfCode(At(run, i).grants, run[i].call.exchange.deviceCode).Some?
  {
    hide At, ExchangeOpen, RecoverExchange;
  }

  lemma ServerLasts(run: seq<Timed>, i: nat, j: nat, id: Id)
    requires i <= j <= |run| && id in At(run, i).grants && At(run, i).grants[id].status == Consumed
    ensures id in At(run, j).grants && At(run, j).grants[id].server == At(run, i).grants[id].server
  {
    hide At;
    History(run, i, j);
  }

  // Access.

  /** Credentials of an alive family let their user in, as long as they are current and not expired. */
  lemma CredentialsLetIn(run: seq<Timed>, i: nat, j: nat, now: int)
    requires i < j <= |run| && OutcomeAt(run, i).Issued?
    ensures var c := OutcomeAt(run, i).credentials;
      var t := At(run, j);
      var r := Authenticate(t, c.accessToken, c.server, now).1;
      Slot(c.family, c.generation) in t.accesses
      && (r.Authenticated? <==> Alive(t, c.family) && t.accesses[Slot(c.family, c.generation)].status == SessionActive
                                && now < Instant(Seconds(c.accessExpiresAt)))
      && (r.Authenticated? ==> r.identity.user == c.user && r.identity.device == c.device && r.identity.family == c.family
                               && r.identity.generation == c.generation)
  {
    hide Inv, At, OutcomeAt;
    CredentialsMatchRows(run, i, j);
    Reachable(run, j);
    DescribedLetsIn(At(run, j), OutcomeAt(run, i).credentials, now);
  }

  lemma DescribedLetsIn(t: Store, c: Credentials, now: int)
    requires Inv(t) && Describes(t, c)
    ensures var r := Authenticate(t, c.accessToken, c.server, now).1;
      Slot(c.family, c.generation) in t.accesses
      && (r.Authenticated? <==> Alive(t, c.family) && t.accesses[Slot(c.family, c.generation)].status == SessionActive
                                && now < Instant(Seconds(c.accessExpiresAt)))
      && (r.Authenticated? ==> r.identity.user == c.user && r.identity.device == c.device && r.identity.family == c.family
                               && r.identity.generation == c.generation)
  {
    hide Inv, Seconds;
    assert RowInv(t) && UniqueInv(t) by { InvParts(t); }
    LeaseSlots(t, Slot(c.family, c.generation));
    hide UniqueInv;
  }
}
