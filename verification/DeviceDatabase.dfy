/**
 The device-session tables as the service changes them: statement by statement inside a
 transaction that is committed or rolled back at its end.

 Every public method is one transaction. Its contract is the step of DeviceTransactions
 that the theorems about runs are stated for.
 */
module DeviceDatabase {
  import opened Wrappers
  import opened Clock
  import opened DeviceTables
  import opened DeviceTransactions
  import opened DeviceInvariant
  import opened DeviceSteps
  import PollGate

  /** The outcome of a transaction body whose tables now read `now'`; a body that fails internally may leave anything. */
  ghost predicate Does(spec: (Store, Outcome), tables: Store, r: Outcome) {
    r == spec.1 && (ShouldCommit(r) ==> tables == spec.0)
  }

  class Database {
    var users: map<Id, bool>
    var grants: map<Id, Grant>
    var devices: map<Id, Device>
    var families: map<Id, Family>
    var accesses: map<Slot, Access>
    var refreshes: map<Slot, Refresh>
    var rotations: map<Slot, Rotation>

    function View(): Store
      reads this
    {
      Store(users, grants, devices, families, accesses, refreshes, rotations)
    }

    ghost predicate Valid()
      reads this
    {
      Inv(View())
    }

    constructor ()
      ensures Valid() && View() == EMPTY
    {
      hide Inv;
      users, grants, devices, families := map[], map[], map[], map[];
      accesses, refreshes, rotations := map[], map[], map[];
      new;
      EmptyInv();
    }

    /** Commit keeps the tables, rollback restores the ones the transaction began with. */
    method FinishTransaction(before: Store, r: Outcome)
      modifies this
      ensures View() == if ShouldCommit(r) then old(View()) else before
    {
      if !ShouldCommit(r) {
        users, grants, devices, families := before.users, before.grants, before.devices, before.families;
        accesses, refreshes, rotations := before.accesses, before.refreshes, before.rotations;
      }
    }

    // Statements shared by several transactions.

    /** The three updates that revoke a family. */
    method RevokeFamilyRows(f: Id)
      requires f in families
      modifies this
      ensures View() == RevokeRows(old(View()), f)
    {
      families := families[f := families[f].(active := false, version := families[f].version + 1)];
      accesses := map k | k in accesses ::
        if k.family == f && accesses[k].status == SessionActive then accesses[k].(status := SessionRevoked) else accesses[k];
      refreshes := map k | k in refreshes ::
        if k.family == f && (refreshes[k].status == RefreshActive || refreshes[k].status == RefreshRotated)
        then refreshes[k].(status := RefreshRevoked) else refreshes[k];
    }

    method SetGrant(id: Id, g: Grant)
      modifies this
      ensures View() == old(View()).(grants := old(grants)[id := g])
    {
      grants := grants[id := g];
    }

    /** Reads the gate, compares it with the clock, and writes the next one under a guard. */
    method EnforcePollGate(id: Id, now: int) returns (verdict: PollGate.Verdict)
      requires id in grants
      modifies this
      ensures (View(), verdict) == PassGate(old(View()), id, now)
    {
      var g := grants[id];
      if Instant(g.nextPollAt) > now {
        var remaining := (Instant(g.nextPollAt) - now) / NANOS;
        if remaining < 1 { remaining := 1; }
        SetGrant(id, g.(nextPollAt := g.nextPollAt + g.interval, updatedAt := Seconds(now)));
        return PollGate.TooEarly(remaining + g.interval);
      }
      if g.nextPollAt <= Seconds(now) {
        SetGrant(id, g.(nextPollAt := Seconds(now + Span(g.interval)), updatedAt := Seconds(now)));
        return PollGate.Admitted;
      }
      return PollGate.SwapLost(g.interval);
    }

    // Authorizations.

    method StartInTransaction(p: Policy, q: StartRequest, draws: seq<GrantDraw>, now: int) returns (r: Outcome)
      modifies this
      ensures Does(Start(old(View()), p, q, draws, now), View(), r)
    {
      if !p.Valid() { return Failed(InvalidRequest); }
      grants := ExpireOverdue(grants, p.server, now);
      grants := DropRetained(grants, families, p.server, now);
      ghost var ready := grants;
      if |ActiveGrants(grants, p.server)| >= MAX_ACTIVE_GRANTS { return Failed(SlowDown(60)); }
      var attempt := 0;
      while attempt < |draws| && attempt < 5
        invariant 0 <= attempt <= |draws| && attempt <= 5
        invariant View() == old(View()).(grants := ready)
        invariant FirstFree(ready, draws, 0) == FirstFree(ready, draws, attempt)
      {
        var d := draws[attempt];
        if !GrantCollides(grants, d) {
          grants := grants[d.id := NewGrant(p, q, d, now)];
          return Started(d.id, d.deviceCode, d.userCode, now + Span(p.authorizationTtl));
        }
        attempt := attempt + 1;
      }
      return Failed(InvalidState);
    }

    method StartAuthorization(p: Policy, q: StartRequest, draws: seq<GrantDraw>, now: int) returns (r: Outcome)
      requires Valid()
      modifies this
      ensures Valid() && (View(), r) == Step(old(View()), CallStart(p, q, draws), now)
    {
      hide Inv, Start;
      var before := View();
      r := StartInTransaction(p, q, draws, now);
      FinishTransaction(before, r);
      StepIsSound(before, CallStart(p, q, draws), now);
    }

    /** Expires an overdue grant before it is shown. */
    method ExpireAuthorizationByUserCode(userCode: Id, server: Id, now: int)
      requires Valid()
      modifies this
      ensures Valid() && (View(), Done) == Step(old(View()), CallExpireCode(userCode, server), now)
    {
      hide Inv;
      ghost var before := View();
      StepIsSound(before, CallExpireCode(userCode, server), now);
      OneGrantOfUserCode(before, userCode);
      if exists id :: id in grants && grants[id].userCode == userCode {
        var id :| id in grants && grants[id].userCode == userCode;
        if grants[id].server == server && grants[id].status == Pending && grants[id].expiresAt <= Seconds(now) {
          SetGrant(id, grants[id].(status := Expired, updatedAt := Seconds(now)));
        }
      }
    }

    /** The read after it, which changes nothing. */
    method ReviewAuthorization(userCode: Id, server: Id) returns (r: Outcome)
      requires Valid()
      ensures r == Review(View(), userCode, server)
    {
      hide Inv;
      OneGrantOfUserCode(View(), userCode);
      if !exists id :: id in grants && grants[id].userCode == userCode && grants[id].server == server {
        return Failed(InvalidUserCode);
      }
      var id :| id in grants && grants[id].userCode == userCode && grants[id].server == server;
      match grants[id].status {
        case Pending => return Reviewed(id);
        case Denied => return Failed(AuthorizationDenied);
        case Expired => return Failed(AuthorizationExpired);
        case _ => return Failed(AuthorizationConsumed);
      }
    }

    method DecideAuthorization(id: Id, approver: Option<Id>, now: int) returns (r: Outcome)
      requires Valid()
      modifies this
      ensures Valid() && (View(), r) == Step(old(View()), CallDecide(id, approver), now)
    {
      hide Inv;
      ghost var before := View();
      StepIsSound(before, CallDecide(id, approver), now);
      if approver.Some? && !UserActive(View(), approver.value) { return Failed(UserInactive); }
      if id in grants && grants[id].status == Pending && grants[id].expiresAt > Seconds(now) {
        var status := if approver.Some? then Approved else Denied;
        grants := grants[id := grants[id].(status := status, approvedUser := approver, updatedAt := Seconds(now))];
        return Done;
      }
      if id !in grants { return Failed(InvalidUserCode); }
      StoredComparison(grants[id].expiresAt, now);
      if Instant(grants[id].expiresAt) <= now && grants[id].status == Pending {
        grants := grants[id := grants[id].(status := Expired, updatedAt := Seconds(now))];
        return Failed(AuthorizationExpired);
      }
      match grants[id].status {
        case Denied => return Failed(AuthorizationDenied);
        case Expired => return Failed(AuthorizationExpired);
        case _ => return Failed(AuthorizationConsumed);
      }
    }

    method PollAuthorization(deviceCode: Id, server: Id, now: int) returns (r: Outcome)
      requires Valid()
      modifies this
      ensures Valid() && (View(), r) == Step(old(View()), CallPoll(deviceCode, server), now)
    {
      hide Inv, PassGate;
      ghost var before := View();
      StepIsSound(before, CallPoll(deviceCode, server), now);
      if !exists id :: id in grants && grants[id].deviceCode == deviceCode && grants[id].server == server {
        return Failed(InvalidDeviceCode);
      }
      var id :| id in grants && grants[id].deviceCode == deviceCode && grants[id].server == server;
      OneGrantOfCode(before, deviceCode, id);
      var g := grants[id];
      if Instant(g.expiresAt) <= now && g.Active() {
        SetGrant(id, g.(status := Expired, updatedAt := Seconds(now)));
        return Failed(AuthorizationExpired);
      }
      if g.Active() {
        var verdict := EnforcePollGate(id, now);
        if !verdict.Admitted? { return Failed(SlowDown(verdict.retryAfter)); }
      }
      return Polled(g.status);
    }

    // Exchange.

    /** Inserts the installation unless it is known; gives its device, or the fault that ends the transaction. */
    method UpsertDevice(user: Id, server: Id, installation: Id, newId: Id) returns (device: Option<Id>, fault: Outcome)
      requires UniqueInv(View())
      modifies this
      ensures View() == old(View()).(devices := devices)
      ensures !ShouldCommit(fault)
      ensures var known := DeviceOf(old(devices), user, server, installation);
              if known.Some? then
                && devices == old(devices)
                && (if devices[known.value].active then device == known else device == None && fault == Failed(InvalidState))
              else if newId in old(devices) then
                device == None && fault == Failed(StorageFailure)
              else
                devices == old(devices)[newId := Device(user, server, installation, true, 1)] && device == Some(newId)
    {
      fault := Failed(InvalidState);
      if exists d :: d in devices && devices[d].user == user && devices[d].server == server && devices[d].installation == installation {
        var d :| d in devices && devices[d].user == user && devices[d].server == server && devices[d].installation == installation;
        ghost var known := DeviceOf(devices, user, server, installation);
        assert SameInstallation(devices[d], devices[known.value]);
        device := if devices[d].active then Some(d) else None;
      } else if newId in devices {
        device, fault := None, Failed(StorageFailure);
      } else {
        devices := devices[newId := Device(user, server, installation, true, 1)];
        device := Some(newId);
      }
    }

    /** The inserts and updates of a first issue, once user and poll gate have passed. */
    method IssueFirstCredentials(id: Id, key: Id, p: Policy, q: ExchangeRequest, draw: Draw, now: int) returns (r: Outcome)
      requires id in grants && UniqueInv(View()) && RowInv(View())
      modifies this
      ensures Does(IssueFirst(old(View()), id, key, p, q, draw, now), View(), r)
    {
      var g := grants[id];
      if g.approvedUser.None? { return Failed(InvalidState); }
      var user := g.approvedUser.value;
      if !UserActive(View(), user) { return Failed(UserInactive); }
      var device, fault := UpsertDevice(user, p.server, g.installation, draw.device);
      if device.None? { return fault; }
      if FirstCollides(View(), id, q.transaction, draw) { return Failed(StorageFailure); }
      r := WriteFirstGeneration(id, key, p, q, draw, device.value, user, now);
    }

    /** The rows of a first issue: family, access session, refresh credential, and the grant that is now consumed. */
    method WriteFirstGeneration(id: Id, key: Id, p: Policy, q: ExchangeRequest, draw: Draw, device: Id, user: Id, now: int) returns (r: Outcome)
      requires id in grants && device in devices
      modifies this
      ensures var c := FirstCredentials(p, device, old(devices)[device].version, user, draw, now);
        && r == Issued(c)
        && View() == old(View()).(
             families := old(families)[draw.family := NewFamily(p, id, device, user, now)],
             accesses := old(accesses)[Slot(draw.family, 0) :=
               Access(draw.accessId, draw.accessToken, SessionActive, c.version, Seconds(c.accessExpiresAt))],
             refreshes := old(refreshes)[Slot(draw.family, 0) := Refresh(draw.refreshToken, RefreshActive, Seconds(c.refreshExpiresAt))],
             grants := old(grants)[id := old(grants)[id].(
               status := Consumed,
               transaction := Some(q.transaction),
               result := Sealed(key, ExchangeAad(id, p.server, q.transaction, q.deviceCode), c),
               resultExpiresAt := Some(Seconds(now + Span(p.idempotencyTtl))),
               updatedAt := Seconds(now))])
    {
      var g := grants[id];
      families := families[draw.family := NewFamily(p, id, device, user, now)];
      var c := FirstCredentials(p, device, devices[device].version, user, draw, now);
      accesses := accesses[Slot(draw.family, 0) :=
        Access(draw.accessId, draw.accessToken, SessionActive, c.version, Seconds(c.accessExpiresAt))];
      refreshes := refreshes[Slot(draw.family, 0) := Refresh(draw.refreshToken, RefreshActive, Seconds(c.refreshExpiresAt))];
      grants := grants[id := g.(
        status := Consumed,
        transaction := Some(q.transaction),
        result := Sealed(key, ExchangeAad(id, p.server, q.transaction, q.deviceCode), c),
        resultExpiresAt := Some(Seconds(now + Span(p.idempotencyTtl))),
        updatedAt := Seconds(now))];
      r := Issued(c);
    }

    method ExchangeInTransaction(key: Id, p: Policy, q: ExchangeRequest, draw: Draw, now: int) returns (r: Outcome)
      requires Valid()
      modifies this
      ensures Does(Exchange(old(View()), key, p, q, draw, now), View(), r)
    {
      hide Inv, IssueFirst, PassGate, FirstCollides;
      ghost var before := View();
      if !p.Valid() { return Failed(InvalidRequest); }
      if !exists id :: id in grants && grants[id].deviceCode == q.deviceCode && grants[id].server == p.server {
        if GrantOfCode(before.grants, q.deviceCode).Some? {
          assert grants[GrantOfCode(before.grants, q.deviceCode).value].server != p.server;
        }
        return Failed(InvalidDeviceCode);
      }
      var id :| id in grants && grants[id].deviceCode == q.deviceCode && grants[id].server == p.server;
      OneGrantOfCode(before, q.deviceCode, id);
      var g := grants[id];
      if g.challenge != S256(q.verifier) { return Failed(InvalidCodeVerifier); }
      if g.status == Consumed { return RecoverExchange(g, id, key, p, q, now); }
      if Instant(g.expiresAt) <= now {
        if g.Active() { SetGrant(id, g.(status := Expired, updatedAt := Seconds(now))); }
        return Failed(AuthorizationExpired);
      }
      if g.status == Denied { return Failed(AuthorizationDenied); }
      if g.status == Expired { return Failed(AuthorizationExpired); }
      GateKeepsTables(before, id, now);
      var verdict := EnforcePollGate(id, now);
      if !verdict.Admitted? { return Failed(SlowDown(verdict.retryAfter)); }
      if g.status == Pending { return Failed(AuthorizationPending(g.interval)); }
      r := IssueFirstCredentials(id, key, p, q, draw, now);
    }

    method ExchangeAuthorization(key: Id, p: Policy, q: ExchangeRequest, draw: Draw, now: int) returns (r: Outcome)
      requires Valid()
      modifies this
      ensures Valid() && (View(), r) == Step(old(View()), CallExchange(key, p, q, draw), now)
    {
      hide Inv, Exchange;
      var before := View();
      r := ExchangeInTransaction(key, p, q, draw, now);
      FinishTransaction(before, r);
      StepIsSound(before, CallExchange(key, p, q, draw), now);
    }

    // Rotation.

    /** The five writes of a rotation. */
    method WriteNextGeneration(k: Slot, key: Id, p: Policy, q: RotateRequest, c: Credentials, accessId: Id, now: int)
      requires k in refreshes && k in accesses && k.family in families
      modifies this
      ensures View() == Minted(old(View()), k, key, p, q, c, accessId, now)
    {
      var aad := AadOf(View(), k, q.transaction, q.token);
      refreshes := refreshes[k := refreshes[k].(status := RefreshRotated)];
      ghost var was := accesses;
      if accesses[k].status == SessionActive {
        accesses := accesses[k := accesses[k].(status := SessionRevoked)];
      }
      assert accesses == map a | a in was ::
        if a == k && was[a].status == SessionActive then was[a].(status := SessionRevoked) else was[a];
      accesses := accesses[Next(k) := Access(accessId, c.accessToken, SessionActive, c.version, Seconds(c.accessExpiresAt))];
      refreshes := refreshes[Next(k) := Refresh(c.refreshToken, RefreshActive, Seconds(c.refreshExpiresAt))];
      families := families[k.family := families[k.family].(slidingExpiresAt := Seconds(c.refreshExpiresAt))];
      rotations := rotations[k := Rotation(q.transaction, Completed, Sealed(key, aad, c), Seconds(now + Span(p.idempotencyTtl)))];
    }

    /** A generation that was rotated before: replay, expiry, recovery or failed recovery. */
    method RecoverInTransaction(k: Slot, key: Id, q: RotateRequest, now: int) returns (r: Outcome)
      requires k in rotations && k.family in families
      modifies this
      ensures (View(), r) == RecoverRotation(old(View()), k, key, q, now)
    {
      var rotation := rotations[k];
      if rotation.transaction != q.transaction {
        RevokeFamilyRows(k.family);
        rotations := rotations[k := rotation.(status := FamilyRevoked)];
        return Failed(RefreshReplay);
      }
      if Instant(rotation.resultExpiresAt) <= now {
        RevokeFamilyRows(k.family);
        rotations := rotations[k := rotation.(status := FamilyRevoked, result := Blank)];
        return Failed(RotationRecoveryFailed);
      }
      var recovered := Open(key, rotation.result, AadOf(View(), k, q.transaction, q.token));
      if recovered.Some? { return Issued(recovered.value); }
      RevokeFamilyRows(k.family);
      rotations := rotations[k := rotation.(status := FamilyRevoked)];
      return Failed(RotationRecoveryFailed);
    }

    method MintInTransaction(k: Slot, key: Id, p: Policy, q: RotateRequest, draw: Draw, now: int) returns (r: Outcome)
      requires k in refreshes && k in accesses && Joined(View(), k)
      modifies this
      ensures Does(MintNext(old(View()), k, key, p, q, draw, now), View(), r)
    {
      hide Minted, NextCredentials, SlotCollides, TransactionUsed;
      if refreshes[k].status != RefreshActive { return Failed(InvalidRefreshToken); }
      if Instant(refreshes[k].expiresAt) <= now || Instant(families[k.family].absoluteExpiresAt) <= now {
        refreshes := refreshes[k := refreshes[k].(status := RefreshExpired)];
        return Failed(RefreshHasExpired);
      }
      if TransactionUsed(rotations, q.transaction) { return Failed(InvalidRequest); }
      if SlotCollides(View(), Next(k), draw) { return Failed(StorageFailure); }
      var c := NextCredentials(View(), k, p, draw, now);
      WriteNextGeneration(k, key, p, q, c, draw.accessId, now);
      return Issued(c);
    }

    method RotateInTransaction(key: Id, p: Policy, q: RotateRequest, draw: Draw, now: int) returns (r: Outcome)
      requires Valid()
      modifies this
      ensures Does(Rotate(old(View()), key, p, q, draw, now), View(), r)
    {
      hide Inv, MintNext, RecoverRotation;
      ghost var before := View();
      if !p.Valid() { return Failed(InvalidRequest); }
      if q.generation < 0 || q.server != p.server { return Failed(InvalidRefreshToken); }
      if !exists k :: k in refreshes && refreshes[k].token == q.token { return Failed(InvalidRefreshToken); }
      var k :| k in refreshes && refreshes[k].token == q.token;
      OneSlotOfRefresh(before, k);
      var refusal := RotateRefusal(View(), k, q);
      if refusal.Some? { return Failed(refusal.value); }
      if k in rotations {
        r := RecoverInTransaction(k, key, q, now);
      } else {
        r := MintInTransaction(k, key, p, q, draw, now);
      }
    }

    method RotateRefreshToken(key: Id, p: Policy, q: RotateRequest, draw: Draw, now: int) returns (r: Outcome)
      requires Valid()
      modifies this
      ensures Valid() && (View(), r) == Step(old(View()), CallRotate(key, p, q, draw), now)
    {
      hide Inv, Rotate;
      var before := View();
      r := RotateInTransaction(key, p, q, draw, now);
      FinishTransaction(before, r);
      StepIsSound(before, CallRotate(key, p, q, draw), now);
    }

    // Using and revoking.

    method AuthenticateAccessToken(token: Id, server: Id, now: int) returns (r: Outcome)
      requires Valid()
      modifies this
      ensures Valid() && (View(), r) == Step(old(View()), CallAuthenticate(token, server), now)
    {
      hide Inv;
      ghost var before := View();
      StepIsSound(before, CallAuthenticate(token, server), now);
      if !exists k :: k in accesses && accesses[k].token == token { return Failed(InvalidAccessToken); }
      var k :| k in accesses && accesses[k].token == token;
      OneSlotOfAccess(before, k);
      if !Joined(View(), k) || families[k.family].server != server { return Failed(InvalidAccessToken); }
      var f := families[k.family];
      var a := accesses[k];
      if !users[f.user] { return Failed(UserInactive); }
      if !devices[f.device].active { return Failed(DeviceRevoked); }
      if !f.active { return Failed(FamilyIsRevoked); }
      if a.status != SessionActive { return Failed(InvalidAccessToken); }
      if Instant(a.expiresAt) <= now {
        accesses := accesses[k := a.(status := SessionExpired)];
        return Failed(AccessExpired);
      }
      if a.version != devices[f.device].version { return Failed(InvalidAccessToken); }
      return Authenticated(Identity(a.id, f.user, f.device, k.family, k.generation, a.version, Instant(a.expiresAt), f.server));
    }

    /** Looks at a lease again without changing anything. */
    method RevalidateAccessLease(lease: Identity, now: int) returns (r: Outcome)
      requires Valid()
      ensures r == Revalidate(View(), lease, now)
    {
      hide Inv;
      if lease.expiresAt <= now { return Failed(AccessExpired); }
      if !exists k :: k in accesses && accesses[k].id == lease.accessId { return Failed(InvalidAccessToken); }
      var k :| k in accesses && accesses[k].id == lease.accessId;
      OneSlotOfAccessId(View(), k);
      if !Joined(View(), k) { return Failed(InvalidAccessToken); }
      var f := families[k.family];
      var d := devices[f.device];
      var a := accesses[k];
      if f.user != lease.user || f.device != lease.device || k.family != lease.family || k.generation != lease.generation {
        return Failed(InvalidAccessToken);
      }
      if a.version != lease.version || f.server != lease.server { return Failed(InvalidAccessToken); }
      if !users[f.user] { return Failed(UserInactive); }
      if !d.active { return Failed(DeviceRevoked); }
      if !f.active { return Failed(FamilyIsRevoked); }
      if a.status != SessionActive || f.version != lease.version || d.version != lease.version || Instant(a.expiresAt) != lease.expiresAt {
        return Failed(InvalidAccessToken);
      }
      return Done;
    }

    method RevokeFamilyForUser(user: Id, family: Id, now: int) returns (r: Outcome)
      requires Valid()
      modifies this
      ensures Valid() && (View(), r) == Step(old(View()), CallRevoke(user, family), now)
    {
      hide Inv, RevokeRows;
      ghost var before := View();
      StepIsSound(before, CallRevoke(user, family), now);
      if family in families && families[family].user == user && families[family].active {
        RevokeFamilyRows(family);
        return Done;
      }
      return Failed(if family in families && families[family].user == user then FamilyIsRevoked else InvalidRequest);
    }

    // Sweeps.

    /** The batch update of the sweep below. */
    method EraseEarliest(limit: nat, now: int) returns (erased: nat, ghost chosen: set<Slot>)
      modifies this
      ensures View() == SweepRotations(old(View()), chosen, now)
      ensures erased == |chosen| && erased <= limit
      ensures chosen <= Sweepable(old(rotations), now)
      ensures erased < limit ==> chosen == Sweepable(old(rotations), now)
      ensures forall k, l :: k in chosen && l in Sweepable(old(rotations), now) - chosen ==>
                old(rotations)[k].resultExpiresAt <= old(rotations)[l].resultExpiresAt
    {
      ghost var before := rotations;
      erased, chosen := 0, {};
      var left := Sweepable(rotations, now);
      assert rotations == Erased(before, {}, now);
      while left != {} && erased < limit
        invariant erased == |chosen| && erased <= limit
        invariant chosen !! left && chosen + left == Sweepable(before, now)
        invariant View() == old(View()).(rotations := Erased(before, chosen, now))
        invariant forall k, l :: k in chosen && l in left ==> before[k].resultExpiresAt <= before[l].resultExpiresAt
        decreases left
      {
        var k := EarliestOf(rotations, left);
        EraseOne(before, chosen, k, now);
        rotations := rotations[k := rotations[k].(result := Blank)];
        left := left - {k};
        chosen := chosen + {k};
        erased := erased + 1;
      }
    }

    /**
     Erases at most `limit` expired rotation results, oldest expiry first: every sweepable
     result left over expires no earlier than every erased one.
     */
    method CleanupExpiredRotationResults(limit: nat, now: int) returns (erased: nat, ghost chosen: set<Slot>)
      requires Valid()
      modifies this
      ensures Valid() && View() == Step(old(View()), CallSweepRotations(chosen), now).0
      ensures erased == |chosen| && erased <= limit
      ensures chosen <= Sweepable(old(rotations), now)
      ensures erased < limit ==> chosen == Sweepable(old(rotations), now)
      ensures forall k, l :: k in chosen && l in Sweepable(old(rotations), now) - chosen ==>
                old(rotations)[k].resultExpiresAt <= old(rotations)[l].resultExpiresAt
    {
      hide Inv, SweepRotations, Sweepable;
      ghost var before := View();
      erased, chosen := EraseEarliest(limit, now);
      StepIsSound(before, CallSweepRotations(chosen), now);
    }

    /** The row of `from` that ORDER BY result_expires_at puts first. */
    method EarliestOf(rows: map<Slot, Rotation>, from: set<Slot>) returns (k: Slot)
      requires from != {} && from <= rows.Keys
      ensures k in from && forall l :: l in from ==> rows[k].resultExpiresAt <= rows[l].resultExpiresAt
    {
      k :| k in from;
      var left := from - {k};
      while left != {}
        invariant left <= from && k in from - left
        invariant forall l :: l in from - left ==> rows[k].resultExpiresAt <= rows[l].resultExpiresAt
        decreases left
      {
        var l :| l in left;
        if rows[l].resultExpiresAt < rows[k].resultExpiresAt { k := l; }
        left := left - {l};
      }
    }

    method EraseExpiredExchangeResults(now: int)
      requires Valid()
      modifies this
      ensures Valid() && View() == Step(old(View()), CallSweepResults, now).0
    {
      hide Inv;
      ghost var before := View();
      grants := map id | id in grants ::
        if ResultSweepable(grants[id], now) then grants[id].(result := Blank, updatedAt := Seconds(now)) else grants[id];
      StepIsSound(before, CallSweepResults, now);
    }

    /** The batch delete of the sweep below. */
    method RemoveBatch(limit: nat, now: int) returns (ghost chosen: set<Id>)
      modifies this
      ensures View() == old(View()).(grants := Remove(old(grants), old(families), chosen, now))
      ensures |chosen| <= limit
      ensures forall id :: id in chosen ==> Removable(old(grants), old(families), id, now)
      ensures |chosen| < limit ==> forall id :: id in grants ==> !Removable(grants, families, id, now)
    {
      hide HasFamily;
      ghost var before := grants;
      chosen := {};
      var removed := 0;
      assert grants == Remove(before, families, {}, now);
      while removed < limit && exists id :: id in grants && Removable(grants, families, id, now)
        invariant removed == |chosen| <= limit
        invariant forall id :: id in chosen ==> Removable(before, old(families), id, now)
        invariant View() == old(View()).(grants := Remove(before, old(families), chosen, now))
        decreases |grants|
      {
        var id :| id in grants && Removable(grants, families, id, now);
        RemoveOne(before, families, chosen, id, now);
        ShrinkByOne(grants, id);
        grants := grants - {id};
        chosen := chosen + {id};
        removed := removed + 1;
      }
    }

    /** Expires every overdue grant, then removes old expired or denied grants up to a batch size. */
    method CleanupExpiredAuthorizations(limit: nat, now: int) returns (ghost chosen: set<Id>)
      requires Valid()
      modifies this
      ensures Valid() && View() == Step(old(View()), CallSweepGrants(chosen), now).0
      ensures |chosen| <= limit
      ensures forall id :: id in chosen ==> Removable(ExpireAll(old(grants), now), families, id, now)
      ensures |chosen| < limit ==> forall id :: id in grants ==> !Removable(grants, families, id, now)
    {
      hide Inv, Removable, ExpireAll;
      ghost var before := View();
      grants := ExpireAll(grants, now);
      chosen := RemoveBatch(limit, now);
      StepIsSound(before, CallSweepGrants(chosen), now);
    }
  }

  function Sweepable(rotations: map<Slot, Rotation>, now: int): set<Slot> {
    set k | k in rotations && RotationSweepable(rotations[k], now)
  }

  lemma EraseOne(rotations: map<Slot, Rotation>, chosen: set<Slot>, k: Slot, now: int)
    requires k in Sweepable(rotations, now) && k !in chosen
    ensures var erased := Erased(rotations, chosen, now);
            erased[k := erased[k].(result := Blank)] == Erased(rotations, chosen + {k}, now)
  {
  }

  lemma RemoveOne(grants: map<Id, Grant>, families: map<Id, Family>, chosen: set<Id>, id: Id, now: int)
    requires id in Remove(grants, families, chosen, now)
    requires Removable(Remove(grants, families, chosen, now), families, id, now)
    ensures id !in chosen && Removable(grants, families, id, now)
    ensures Remove(grants, families, chosen, now) - {id} == Remove(grants, families, chosen + {id}, now)
  {
  }

  lemma ShrinkByOne(grants: map<Id, Grant>, id: Id)
    requires id in grants
    ensures |grants - {id}| < |grants|
  {
    assert (grants - {id}).Keys == grants.Keys - {id};
  }

  lemma GateKeepsTables(s: Store, id: Id, now: int)
    requires Inv(s) && id in s.grants
    ensures var t := PassGate(s, id, now).0;
            id in t.grants && UniqueInv(t) && RowInv(t)
  {
  }

  lemma OneSlotOfRefresh(s: Store, k: Slot)
    requires Inv(s) && k in s.refreshes
    ensures SlotOfRefresh(s.refreshes, s.refreshes[k].token) == Some(k) && k in s.accesses
  {
    InvParts(s);
    RefreshHasAccess(s, k);
    OneTokenOneSlot(s, k);
  }

  lemma OneTokenOneSlot(s: Store, k: Slot)
    requires UniqueInv(s) && k in s.refreshes
    ensures SlotOfRefresh(s.refreshes, s.refreshes[k].token) == Some(k)
  {
  }

  lemma RefreshHasAccess(s: Store, k: Slot)
    requires ChainInv(s) && k in s.refreshes
    ensures k in s.accesses
  {
    var n := ChainOf(s, k.family);
    hide ChainInv;
    assert Slot(k.family, k.generation) in s.refreshes;
  }

  lemma OneSlotOfAccess(s: Store, k: Slot)
    requires Inv(s) && k in s.accesses
    ensures SlotOfAccess(s.accesses, s.accesses[k].token) == Some(k)
  {
    assert UniqueInv(s) by { InvParts(s); }
    hide Inv;
  }

  lemma OneSlotOfAccessId(s: Store, k: Slot)
    requires Inv(s) && k in s.accesses
    ensures SlotOfAccessId(s.accesses, s.accesses[k].id) == Some(k)
  {
    assert UniqueInv(s) by { InvParts(s); }
    hide Inv;
  }

  lemma OneGrantOfUserCode(s: Store, code: Id)
    requires Inv(s)
    ensures forall id :: id in s.grants && s.grants[id].userCode == code ==> GrantOfUserCode(s.grants, code) == Some(id)
  {
    assert CodeInv(s.grants) by { InvParts(s); }
    hide Inv;
  }

  lemma OneGrantOfCode(s: Store, code: Id, id: Id)
    requires Inv(s) && id in s.grants && s.grants[id].deviceCode == code
    ensures GrantOfCode(s.grants, code) == Some(id)
  {
    assert CodeInv(s.grants) by { InvParts(s); }
    hide Inv;
  }
}
