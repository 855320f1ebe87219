/**
 What ends credentials: exactly which calls end a family, a session or a refresh credential,
 and what follows for revocations, used tokens, passwords, devices and accounts.
 */
module DeviceEnds {
  import opened Wrappers
  import opened Clock
  import opened DeviceTables
  import opened DeviceTransactions
  import opened DeviceInvariant
  import opened DeviceSteps
  import opened DeviceRows
  import opened DeviceRuns
  import opened DeviceConsent
  import opened DeviceAvailability
  import opened DeviceLifetimes
  import PollGate

  // What ends families and rows, and what does not.

  ghost predicate OwnsToken(s: Store, f: Id, token: Id) {
    exists k :: k in s.refreshes && k.family == f && s.refreshes[k].token == token
  }

  /** The call revokes family `f` with its rows: its user asked for it, or a used token of it came back and could not be recovered. */
  ghost predicate Revokes(s: Store, call: Call, r: Outcome, f: Id) {
    || (call.CallRevoke? && call.family == f && r == Done)
    || (call.CallRotate? && (r == Failed(RefreshReplay) || r == Failed(RotationRecoveryFailed)) && OwnsToken(s, f, call.rotate.token))
  }

  ghost predicate EndsFamily(s: Store, call: Call, r: Outcome, f: Id)
    requires f in s.families
  {
    Revokes(s, call, r, f) || (call.CallChangePassword? && s.families[f].user == call.user && call.keep != Some(f))
  }

  ghost predicate EndsAccess(s: Store, call: Call, r: Outcome, k: Slot)
    requires k in s.accesses
  {
    || Revokes(s, call, r, k.family)
    || (call.CallRotate? && r.Issued? && r.credentials.family == k.family && r.credentials.generation == k.generation + 1)
    || (call.CallAuthenticate? && call.token == s.accesses[k].token && r == Failed(AccessExpired))
  }

  ghost predicate EndsRefresh(s: Store, call: Call, r: Outcome, k: Slot)
    requires k in s.refreshes
  {
    || Revokes(s, call, r, k.family)
    || (call.CallRotate? && call.rotate.token == s.refreshes[k].token && (r.Issued? || r == Failed(RefreshHasExpired)))
  }

  ghost predicate FamilyEnds(s: Store, t: Store, call: Call, r: Outcome, f: Id)
    requires f in s.families
  {
    f in t.families && (t.families[f].active <==> s.families[f].active && !EndsFamily(s, call, r, f))
  }

  ghost predicate AccessEnds(s: Store, t: Store, call: Call, r: Outcome, k: Slot)
    requires k in s.accesses
  {
    k in t.accesses && (t.accesses[k].status == SessionActive <==> s.accesses[k].status == SessionActive && !EndsAccess(s, call, r, k))
  }

  ghost predicate RefreshEnds(s: Store, t: Store, call: Call, r: Outcome, k: Slot)
    requires k in s.refreshes
  {
    k in t.refreshes && (t.refreshes[k].status == RefreshActive <==> s.refreshes[k].status == RefreshActive && !EndsRefresh(s, call, r, k))
  }

  /** Exactly these calls end a family, a session or a refresh credential, and none brings one back. */
  ghost predicate EndsExactly(s: Store, t: Store, call: Call, r: Outcome) {
    && (forall f :: f in s.families ==> FamilyEnds(s, t, call, r, f))
    && (forall k :: k in s.accesses ==> AccessEnds(s, t, call, r, k))
    && (forall k :: k in s.refreshes ==> RefreshEnds(s, t, call, r, k))
  }

  /** Families and rows that were there stay as they are. */
  ghost predicate KeepsAll(s: Store, t: Store) {
    && (forall f :: f in s.families ==> f in t.families && t.families[f] == s.families[f])
    && (forall k :: k in s.accesses ==> k in t.accesses && t.accesses[k] == s.accesses[k])
    && (forall k :: k in s.refreshes ==> k in t.refreshes && t.refreshes[k] == s.refreshes[k])
  }

  ghost predicate EndsNothing(call: Call, r: Outcome) {
    && !call.CallRevoke? && !call.CallChangePassword?
    && (call.CallRotate? ==> !r.Issued? && r != Failed(RefreshReplay) && r != Failed(RotationRecoveryFailed) && r != Failed(RefreshHasExpired))
    && (call.CallAuthenticate? ==> r != Failed(AccessExpired))
  }

  lemma NotRevoking(s: Store, call: Call, r: Outcome, f: Id)
    requires !call.CallRevoke? && (call.CallRotate? ==> r != Failed(RefreshReplay) && r != Failed(RotationRecoveryFailed))
    ensures !Revokes(s, call, r, f)
  {
  }

  lemma KeptEndsExactly(s: Store, t: Store, call: Call, r: Outcome)
    requires KeepsAll(s, t) && EndsNothing(call, r)
    ensures EndsExactly(s, t, call, r)
  {
    hide EndsNothing, FamilyEnds, AccessEnds, RefreshEnds;
    forall f | f in s.families ensures FamilyEnds(s, t, call, r, f) { SameFamilyEnds(s, t, call, r, f); }
    forall k | k in s.accesses ensures AccessEnds(s, t, call, r, k) { SameAccessEnds(s, t, call, r, k); }
    forall k | k in s.refreshes ensures RefreshEnds(s, t, call, r, k) { SameRefreshEnds(s, t, call, r, k); }
  }

  lemma SameFamilyEnds(s: Store, t: Store, call: Call, r: Outcome, f: Id)
    requires f in s.families && f in t.families && s.families[f] == t.families[f] && EndsNothing(call, r)
    ensures FamilyEnds(s, t, call, r, f)
  {
    hide OwnsToken;
  }

  lemma SameAccessEnds(s: Store, t: Store, call: Call, r: Outcome, k: Slot)
    requires k in s.accesses && k in t.accesses && s.accesses[k] == t.accesses[k] && EndsNothing(call, r)
    ensures AccessEnds(s, t, call, r, k)
  {
    hide OwnsToken;
  }

  lemma SameRefreshEnds(s: Store, t: Store, call: Call, r: Outcome, k: Slot)
    requires k in s.refreshes && k in t.refreshes && s.refreshes[k] == t.refreshes[k] && EndsNothing(call, r)
    ensures RefreshEnds(s, t, call, r, k)
  {
    hide OwnsToken;
  }

  lemma RevokedRowsEnd(s: Store, t: Store, call: Call, r: Outcome, f: Id)
    requires f in s.families && (call.CallRevoke? || (call.CallRotate? && !r.Issued? && r != Failed(RefreshHasExpired)))
    requires forall h :: Revokes(s, call, r, h) <==> h == f
    requires var u := RevokeRows(s, f); t.families == u.families && t.accesses == u.accesses && t.refreshes == u.refreshes
    ensures EndsExactly(s, t, call, r)
  {
    hide Revokes, FamilyEnds, AccessEnds, RefreshEnds, RevokeRows;
    forall h | h in s.families ensures FamilyEnds(s, t, call, r, h) { RevokedFamilyEnds(s, t, call, r, f, h); }
    forall k | k in s.accesses ensures AccessEnds(s, t, call, r, k) { RevokedAccessEnds(s, t, call, r, f, k); }
    forall k | k in s.refreshes ensures RefreshEnds(s, t, call, r, k) { RevokedRefreshEnds(s, t, call, r, f, k); }
  }

  lemma RevokedFamilyEnds(s: Store, t: Store, call: Call, r: Outcome, f: Id, h: Id)
    requires f in s.families && h in s.families && !call.CallChangePassword? && (Revokes(s, call, r, h) <==> h == f)
    requires t.families == RevokeRows(s, f).families
    ensures FamilyEnds(s, t, call, r, h)
  {
    hide Revokes;
  }

  lemma RevokedAccessEnds(s: Store, t: Store, call: Call, r: Outcome, f: Id, k: Slot)
    requires f in s.families && k in s.accesses && !call.CallAuthenticate? && (call.CallRotate? ==> !r.Issued?)
    requires Revokes(s, call, r, k.family) <==> k.family == f
    requires t.accesses == RevokeRows(s, f).accesses
    ensures AccessEnds(s, t, call, r, k)
  {
    hide Revokes, RevokeRows;
    RevokedRow(s, f, k);
  }

  lemma RevokedRow(s: Store, f: Id, k: Slot)
    requires f in s.families
    ensures var t := RevokeRows(s, f);
      && (k in s.accesses <==> k in t.accesses) && (k in s.refreshes <==> k in t.refreshes)
      && (k in s.accesses ==> (t.accesses[k].status == SessionActive <==> s.accesses[k].status == SessionActive && k.family != f))
      && (k in s.refreshes ==> (t.refreshes[k].status == RefreshActive <==> s.refreshes[k].status == RefreshActive && k.family != f))
  {
  }

  lemma RevokedRefreshEnds(s: Store, t: Store, call: Call, r: Outcome, f: Id, k: Slot)
    requires f in s.families && k in s.refreshes && (call.CallRotate? ==> !r.Issued? && r != Failed(RefreshHasExpired))
    requires Revokes(s, call, r, k.family) <==> k.family == f
    requires t.refreshes == RevokeRows(s, f).refreshes
    ensures RefreshEnds(s, t, call, r, k)
  {
    hide Revokes, RevokeRows;
    RevokedRow(s, f, k);
  }

  lemma RevokeEnds(s: Store, user: Id, f: Id)
    ensures var (t, r) := Revoke(s, user, f); EndsExactly(s, t, CallRevoke(user, f), r)
  {
    hide RevokeRows, EndsExactly;
    var (t, r) := Revoke(s, user, f);
    var call := CallRevoke(user, f);
    if r == Done {
      RevokedRowsEnd(s, t, call, r, f);
    } else {
      FailedRevokeEnds(s, call, r);
    }
  }

  lemma FailedRevokeEnds(s: Store, call: Call, r: Outcome)
    requires call.CallRevoke? && r.Failed?
    ensures EndsExactly(s, s, call, r)
  {
  }

  lemma CondemnedEnds(s: Store, k: Slot, result: Ciphertext, call: Call, r: Outcome)
    requires UniqueInv(s) && k in s.rotations && k in s.refreshes && k.family in s.families
    requires call.CallRotate? && call.rotate.token == s.refreshes[k].token && (r == Failed(RefreshReplay) || r == Failed(RotationRecoveryFailed))
    ensures EndsExactly(s, CondemnRotation(s, k, result), call, r)
  {
    hide EndsExactly;
    forall h ensures Revokes(s, call, r, h) <==> h == k.family {
      TokenOwner(s, k, h);
    }
    hide UniqueInv;
    RevokedRowsEnd(s, CondemnRotation(s, k, result), call, r, k.family);
  }

  lemma TokenOwner(s: Store, k: Slot, h: Id)
    requires UniqueInv(s) && k in s.refreshes
    ensures OwnsToken(s, h, s.refreshes[k].token) <==> h == k.family
  {
  }

  /** Below an unspent slot every session is over, so a rotation from it ends just its own. */
  lemma MintEnds(s: Store, k: Slot, key: Id, p: Policy, q: RotateRequest, draw: Draw, now: int)
    requires UniqueInv(s) && k in s.refreshes && Joined(s, k) && s.refreshes[k].token == q.token && q.server == p.server
    ensures var (t, r) := MintNext(s, k, key, p, q, draw, now); EndsExactly(s, t, CallRotate(key, p, q, draw), r)
  {
    hide TransactionUsed, SlotCollides, Seconds, Instant, Span, Revokes, UniqueInv;
    var (t, r) := MintNext(s, k, key, p, q, draw, now);
    var call := CallRotate(key, p, q, draw);
    if r.Issued? { FreeSlot(s, Next(k), draw); }
    forall f | f in s.families ensures FamilyEnds(s, t, call, r, f) { NotRevoking(s, call, r, f); }
    forall l | l in s.accesses ensures AccessEnds(s, t, call, r, l) { NotRevoking(s, call, r, l.family); }
    forall l | l in s.refreshes ensures RefreshEnds(s, t, call, r, l) {
      NotRevoking(s, call, r, l.family);
      TokenNames(s, k, l);
    }
  }

  lemma TokenNames(s: Store, k: Slot, l: Slot)
    requires UniqueInv(s) && k in s.refreshes && l in s.refreshes
    ensures s.refreshes[k].token == s.refreshes[l].token ==> k == l
  {
  }

  lemma FreeSlot(s: Store, k: Slot, draw: Draw)
    requires !SlotCollides(s, k, draw)
    ensures k !in s.accesses && k !in s.refreshes
  {
  }

  lemma RotateEnds(s: Store, key: Id, p: Policy, q: RotateRequest, draw: Draw, now: int)
    requires Inv(s)
    ensures var (t, r) := Rotate(s, key, p, q, draw, now); EndsExactly(s, t, CallRotate(key, p, q, draw), r)
  {
    hide Inv, ChainInv, UniqueInv, ResultInv, MintNext, CondemnRotation, EndsExactly, RecoverRotation, KeepsAll;
    InvParts(s);
    var call := CallRotate(key, p, q, draw);
    var (t, r) := Rotate(s, key, p, q, draw, now);
    var k := SlotOfRefresh(s.refreshes, q.token);
    KeepsItself(s);
    if k.Some? && p.Valid() && q.generation >= 0 && q.server == p.server && RotateRefusal(s, k.value, q).None? {
      RefusalJoins(s, k.value, q);
      if k.value in s.rotations {
        RecoveryEnds(s, k.value, key, p, q, draw, now);
      } else {
        MintEnds(s, k.value, key, p, q, draw, now);
      }
    } else {
      KeptEndsExactly(s, s, call, r);
    }
  }

  lemma KeepsItself(s: Store)
    ensures KeepsAll(s, s)
  {
  }

  lemma RecoveryEnds(s: Store, k: Slot, key: Id, p: Policy, q: RotateRequest, draw: Draw, now: int)
    requires Inv(s) && k in s.refreshes && k in s.rotations && k.family in s.families && s.refreshes[k].token == q.token
    ensures var (t, r) := RecoverRotation(s, k, key, q, now); EndsExactly(s, t, CallRotate(key, p, q, draw), r)
  {
    hide Inv, ChainInv, UniqueInv, CondemnRotation, EndsExactly, Describes;
    InvParts(s);
    var call := CallRotate(key, p, q, draw);
    var (t, r) := RecoverRotation(s, k, key, q, now);
    if r.Issued? {
      assert RotationResult(s, k, s.rotations[k].result);
      SpentStays(s, call, r, k);
    } else {
      CondemnedEnds(s, k, s.rotations[k].result, call, r);
      CondemnedEnds(s, k, Blank, call, r);
    }
  }

  /** A recovery finds everything it would end already over. */
  lemma SpentStays(s: Store, call: Call, r: Outcome, k: Slot)
    requires Inv(s) && k in s.refreshes && k in s.rotations && call.CallRotate? && call.rotate.token == s.refreshes[k].token
    requires r.Issued? && r.credentials.family == k.family && r.credentials.generation == k.generation + 1
    ensures EndsExactly(s, s, call, r)
  {
    hide Inv, ChainInv, UniqueInv, RowInv, ResultInv, GrantInv, CodeInv, CapacityInv, FamilyEnds, AccessEnds, RefreshEnds;
    SpentIsOver(s, k);
    InvParts(s);
    forall f | f in s.families ensures FamilyEnds(s, s, call, r, f) { SpentFamilyStays(s, call, r, f); }
    forall l | l in s.accesses ensures AccessEnds(s, s, call, r, l) { SpentSessionStays(s, call, r, k, l); }
    forall l | l in s.refreshes ensures RefreshEnds(s, s, call, r, l) { SpentCredentialStays(s, call, r, k, l); }
  }

  lemma SpentFamilyStays(s: Store, call: Call, r: Outcome, f: Id)
    requires call.CallRotate? && r.Issued? && f in s.families
    ensures FamilyEnds(s, s, call, r, f)
  {
    hide Revokes;
    NotRevoking(s, call, r, f);
  }

  lemma SpentSessionStays(s: Store, call: Call, r: Outcome, k: Slot, l: Slot)
    requires call.CallRotate? && r.Issued? && r.credentials.family == k.family && r.credentials.generation == k.generation + 1
    requires l in s.accesses && k in s.accesses && s.accesses[k].status != SessionActive
    ensures AccessEnds(s, s, call, r, l)
  {
    hide Revokes;
    NotRevoking(s, call, r, l.family);
    assert l == Slot(l.family, l.generation) && k == Slot(k.family, k.generation);
  }

  lemma SpentCredentialStays(s: Store, call: Call, r: Outcome, k: Slot, l: Slot)
    requires UniqueInv(s) && call.CallRotate? && r.Issued? && k in s.refreshes && call.rotate.token == s.refreshes[k].token
    requires l in s.refreshes && s.refreshes[k].status != RefreshActive
    ensures RefreshEnds(s, s, call, r, l)
  {
    hide Revokes, UniqueInv;
    NotRevoking(s, call, r, l.family);
    TokenNames(s, k, l);
  }

  lemma SpentIsOver(s: Store, k: Slot)
    requires Inv(s) && k in s.refreshes && k in s.rotations
    ensures s.refreshes[k].status != RefreshActive && k in s.accesses && s.accesses[k].status != SessionActive
  {
    assert ChainInv(s) by { InvParts(s); }
    hide Inv, HasChain;
    var n := ChainOf(s, k.family);
    assert Slot(k.family, k.generation) in s.rotations;
    hide ChainInv;
  }

  lemma AuthenticateEnds(s: Store, token: Id, server: Id, now: int)
    requires UniqueInv(s)
    ensures var (t, r) := Authenticate(s, token, server, now); EndsExactly(s, t, CallAuthenticate(token, server), r)
  {
    hide Instant;
  }

  lemma ExchangeKeepsAll(s: Store, key: Id, p: Policy, q: ExchangeRequest, draw: Draw, now: int)
    ensures KeepsAll(s, Exchange(s, key, p, q, draw, now).0)
  {
    hide PassGate, ExpireGrant, RecoverExchange, Instant, Seconds, KeepsAll, FirstCollides;
    KeepsItself(s);
    var id := GrantOfCode(s.grants, q.deviceCode);
    if id.Some? {
      GateSameTables(s, id.value, now);
      IssueKeepsAll(PassGate(s, id.value, now).0, id.value, key, p, q, draw, now);
      SameTablesKeep(s, PassGate(s, id.value, now).0, IssueFirst(PassGate(s, id.value, now).0, id.value, key, p, q, draw, now).0);
      SameTablesKeep(s, PassGate(s, id.value, now).0, PassGate(s, id.value, now).0);
      SameTablesKeep(s, ExpireGrant(s, id.value, now), ExpireGrant(s, id.value, now));
    }
  }

  lemma GateSameTables(s: Store, id: Id, now: int)
    requires id in s.grants
    ensures var t := PassGate(s, id, now).0; t == s.(grants := t.grants) && id in t.grants && KeepsAll(t, t)
    ensures var t := ExpireGrant(s, id, now); t == s.(grants := t.grants) && KeepsAll(t, t)
  {
    hide Seconds, PollGate.Check;
  }

  lemma SameTablesKeep(s: Store, u: Store, t: Store)
    requires u == s.(grants := u.grants) && KeepsAll(u, t)
    ensures KeepsAll(s, t)
  {
  }

  lemma IssueKeepsAll(s: Store, id: Id, key: Id, p: Policy, q: ExchangeRequest, draw: Draw, now: int)
    requires id in s.grants
    ensures KeepsAll(s, IssueFirst(s, id, key, p, q, draw, now).0)
  {
    hide HasFamily, Seconds, Span;
  }

  lemma PollKeepsAll(s: Store, code: Id, server: Id, now: int)
    ensures KeepsAll(s, Poll(s, code, server, now).0)
  {
    hide PassGate, ExpireGrant, Instant, KeepsAll;
    KeepsItself(s);
    var id := GrantOfCode(s.grants, code);
    if id.Some? {
      GateSameTables(s, id.value, now);
      SameTablesKeep(s, PassGate(s, id.value, now).0, PassGate(s, id.value, now).0);
      SameTablesKeep(s, ExpireGrant(s, id.value, now), ExpireGrant(s, id.value, now));
    }
  }

  lemma StartKeepsAll(s: Store, p: Policy, q: StartRequest, draws: seq<GrantDraw>, now: int)
    ensures KeepsAll(s, Start(s, p, q, draws, now).0)
  {
    hide DropRetained, ExpireOverdue, FirstFree, ActiveGrants, NewGrant, Span, Policy.Valid;
  }

  lemma GrantsOnlyKeepAll(s: Store, t: Store)
    requires t == s.(grants := t.grants)
    ensures KeepsAll(s, t)
  {
  }

  lemma GrantCallsTouchGrants(s: Store, call: Call, now: int)
    requires call.CallExpireCode? || call.CallReview? || call.CallDecide? || call.CallSweepResults? || call.CallSweepGrants?
    ensures var t := Transact(s, call, now).0; t == s.(grants := t.grants)
  {
    hide Seconds, Instant, HasFamily, UserActive, Remove, ExpireAll, ResultSweepable, Review;
  }

  lemma OthersKeepAll(s: Store, call: Call, now: int)
    requires !call.CallExchange? && !call.CallRotate? && !call.CallRevoke? && !call.CallAuthenticate? && !call.CallChangePassword?
    ensures KeepsAll(s, Transact(s, call, now).0)
  {
    hide Start, Poll, ExpireByCode, Review, Decide, SweepResults, SweepGrants, Erased;
    match call
    case CallStart(p, q, draws) => StartKeepsAll(s, p, q, draws, now);
    case CallPoll(code, server) => PollKeepsAll(s, code, server, now);
    case CallSetUser(_, _) =>
    case CallRevokeDevice(_) =>
    case CallSweepRotations(_) =>
    case _ =>
      GrantCallsTouchGrants(s, call, now);
      GrantsOnlyKeepAll(s, Transact(s, call, now).0);
  }

  lemma ChangePasswordEnds(s: Store, user: Id, keep: Option<Id>)
    ensures EndsExactly(s, ChangePassword(s, user, keep), CallChangePassword(user, keep), Done)
  {
  }

  lemma TransactEnds(s: Store, call: Call, now: int)
    requires Inv(s)
    ensures var (t, r) := Transact(s, call, now); EndsExactly(s, t, call, r)
  {
    hide Inv, ChainInv, UniqueInv, EndsExactly, KeepsAll, Start, ExpireByCode, Review, Decide, Poll, Exchange, Rotate, Authenticate, Revoke, ChangePassword;
    InvParts(s);
    match call
    case CallExchange(key, p, q, draw) =>
      ExchangeKeepsAll(s, key, p, q, draw, now);
      KeptEndsExactly(s, Transact(s, call, now).0, call, Transact(s, call, now).1);
    case CallRotate(key, p, q, draw) => RotateEnds(s, key, p, q, draw, now);
    case CallRevoke(user, f) => RevokeEnds(s, user, f);
    case CallAuthenticate(token, server) => AuthenticateEnds(s, token, server, now);
    case CallChangePassword(user, keep) => ChangePasswordEnds(s, user, keep);
    case _ =>
      OthersKeepAll(s, call, now);
      KeptEndsExactly(s, Transact(s, call, now).0, call, Transact(s, call, now).1);
  }

  /** In every step of every run, exactly the calls of EndsFamily, EndsAccess and EndsRefresh end something, and just that. */
  lemma StepEnds(run: seq<Timed>, i: nat)
    requires i < |run|
    ensures EndsExactly(At(run, i), At(run, i + 1), run[i].call, OutcomeAt(run, i))
  {
    hide Inv, Transact, EndsExactly;
    Reachable(run, i);
    var s, call := At(run, i), run[i].call;
    TransactEnds(s, call, run[i].now);
    assert At(run, i + 1) == Step(s, call, run[i].now).0;
    ChangedPassword(s, call, run[i].now);
    if !ShouldCommit(OutcomeAt(run, i)) { RolledBackEndsNothing(s, call, OutcomeAt(run, i)); }
  }

  lemma ChangedPassword(s: Store, call: Call, now: int)
    ensures call.CallChangePassword? ==> Transact(s, call, now).1 == Done
  {
    hide Start, Poll, Exchange, Rotate, Authenticate;
  }

  lemma RolledBackEndsNothing(s: Store, call: Call, r: Outcome)
    requires !ShouldCommit(r) && !call.CallChangePassword?
    ensures EndsExactly(s, s, call, r)
  {
    hide EndsExactly;
    if call.CallRevoke? {
      FailedRevokeEnds(s, call, r);
    } else {
      KeptEndsExactly(s, s, call, r);
    }
  }

  // Over whole runs.

  ghost predicate FamilyEnded(run: seq<Timed>, i: nat, j: nat, f: Id)
    requires i <= j <= |run|
  {
    exists m :: i <= m < j && f in At(run, m).families && EndsFamily(At(run, m), run[m].call, OutcomeAt(run, m), f)
  }

  ghost predicate AccessEnded(run: seq<Timed>, i: nat, j: nat, k: Slot)
    requires i <= j <= |run|
  {
    exists m :: i <= m < j && k in At(run, m).accesses && EndsAccess(At(run, m), run[m].call, OutcomeAt(run, m), k)
  }

  ghost predicate RefreshEnded(run: seq<Timed>, i: nat, j: nat, k: Slot)
    requires i <= j <= |run|
  {
    exists m :: i <= m < j && k in At(run, m).refreshes && EndsRefresh(At(run, m), run[m].call, OutcomeAt(run, m), k)
  }

  /** A family is active exactly until the first call that ends it. */
  lemma {:induction false} FamilyActiveIff(run: seq<Timed>, i: nat, j: nat, f: Id)
    requires i <= j <= |run| && f in At(run, i).families
    ensures f in At(run, j).families && (At(run, j).families[f].active <==> At(run, i).families[f].active && !FamilyEnded(run, i, j, f))
    decreases j
  {
    hide At, EndsFamily, OutcomeAt;
    if i < j {
      FamilyActiveIff(run, i, j - 1, f);
      StepEnds(run, j - 1);
      assert FamilyEnds(At(run, j - 1), At(run, j), run[j - 1].call, OutcomeAt(run, j - 1), f);
    }
  }

  /** A session is active exactly until the first call that ends it. */
  lemma {:induction false} AccessActiveIff(run: seq<Timed>, i: nat, j: nat, k: Slot)
    requires i <= j <= |run| && k in At(run, i).accesses
    ensures k in At(run, j).accesses
      && (At(run, j).accesses[k].status == SessionActive <==> At(run, i).accesses[k].status == SessionActive && !AccessEnded(run, i, j, k))
    decreases j
  {
    hide At, EndsAccess, OutcomeAt;
    if i < j {
      AccessActiveIff(run, i, j - 1, k);
      StepEnds(run, j - 1);
      assert AccessEnds(At(run, j - 1), At(run, j), run[j - 1].call, OutcomeAt(run, j - 1), k);
    }
  }

  /** A refresh credential is active exactly until the first call that ends it. */
  lemma {:induction false} RefreshActiveIff(run: seq<Timed>, i: nat, j: nat, k: Slot)
    requires i <= j <= |run| && k in At(run, i).refreshes
    ensures k in At(run, j).refreshes
      && (At(run, j).refreshes[k].status == RefreshActive <==> At(run, i).refreshes[k].status == RefreshActive && !RefreshEnded(run, i, j, k))
    decreases j
  {
    hide At, EndsRefresh, OutcomeAt;
    if i < j {
      RefreshActiveIff(run, i, j - 1, k);
      StepEnds(run, j - 1);
      assert RefreshEnds(At(run, j - 1), At(run, j), run[j - 1].call, OutcomeAt(run, j - 1), k);
    }
  }

  /** The request names the credentials it renews, at a server of the same policy. */
  predicate RenewalOf(call: Call, c: Credentials) {
    && call.CallRotate? && call.policy.Valid() && call.policy.server == call.rotate.server == c.server
    && call.rotate.token == c.refreshToken && call.rotate.generation == c.generation && call.rotate.device == c.device
  }

  /**
   The whole life of a refresh token: presented for the first time at step `j`, it rotates
   exactly if nothing has ended it since its issue, its lifetime is not over, account, device
   and family are alive, and the new draws are new.
   */
  lemma UnusedTokenRotatesIff(run: seq<Timed>, i: nat, j: nat)
    requires MintsAt(run, i) && i < j < |run| && RenewalOf(run[j].call, OutcomeAt(run, i).credentials)
    requires Slot(OutcomeAt(run, i).credentials.family, OutcomeAt(run, i).credentials.generation) !in At(run, j).rotations
    ensures var c, p, call := OutcomeAt(run, i).credentials, PolicyOf(run[i].call).value, run[j].call;
      var k := Slot(c.family, c.generation);
      OutcomeAt(run, j).Issued? <==>
        && !RefreshEnded(run, i + 1, j, k) && Alive(At(run, j), c.family)
        && run[j].now < Instant(Seconds(run[i].now) + p.slidingTtl) && run[j].now < Instant(AbsoluteOf(run, i))
        && !TransactionUsed(At(run, j).rotations, call.rotate.transaction)
        && !SlotCollides(At(run, j), Slot(c.family, c.generation + 1), call.draw)
  {
    hide Inv, At, Rotate, OutcomeAt, RefreshEnded, SlotCollides, TransactionUsed, Alive, RotatesAt, EntersAt;
    MintLives(run, i);
    TokenKeepsExpiry(run, i, j);
    MintIsIssued(run, i);
    var c, call := OutcomeAt(run, i).credentials, run[j].call;
    var k := Slot(c.family, c.generation);
    RefreshActiveIff(run, i + 1, j, k);
    CredentialsMatchRows(run, i, j);
    Reachable(run, j);
    FirstRotationIff(At(run, j), k, call.key, call.policy, call.rotate, call.draw, run[j].now);
    StepOfRotate(run, j);
  }

  lemma MintIsIssued(run: seq<Timed>, i: nat)
    requires MintsAt(run, i)
    ensures OutcomeAt(run, i).Issued? && PolicyOf(run[i].call).Some?
  {
    hide At, OutcomeAt;
  }

  // Revocation by the user.

  /** A user's revocation succeeds exactly for an active family of theirs; otherwise it changes nothing. */
  lemma RevocationIff(run: seq<Timed>, i: nat, user: Id, f: Id)
    requires i < |run| && run[i].call == CallRevoke(user, f)
    ensures var s := At(run, i);
      && (OutcomeAt(run, i) == Done <==> f in s.families && s.families[f].user == user && s.families[f].active)
      && (OutcomeAt(run, i) == Failed(FamilyIsRevoked) <==> f in s.families && s.families[f].user == user && !s.families[f].active)
      && (OutcomeAt(run, i) != Done ==> At(run, i + 1) == s)
  {
    hide RevokeRows;
    assert At(run, i + 1) == Step(At(run, i), run[i].call, run[i].now).0;
    hide At;
  }

  ghost predicate SpareOthers(s: Store, t: Store, f: Id) {
    && t == s.(families := t.families, accesses := t.accesses, refreshes := t.refreshes)
    && t.families.Keys == s.families.Keys && t.accesses.Keys == s.accesses.Keys && t.refreshes.Keys == s.refreshes.Keys
    && (forall h :: h in s.families && h != f ==> t.families[h] == s.families[h])
    && (forall k :: k in s.accesses && k.family != f ==> t.accesses[k] == s.accesses[k])
    && (forall k :: k in s.refreshes && k.family != f ==> t.refreshes[k] == s.refreshes[k])
  }

  lemma RevocationSpares(run: seq<Timed>, i: nat, user: Id, f: Id)
    requires i < |run| && run[i].call == CallRevoke(user, f)
    ensures SpareOthers(At(run, i), At(run, i + 1), f)
  {
    assert At(run, i + 1) == Step(At(run, i), run[i].call, run[i].now).0;
    hide At;
  }

  /** What a step revokes is dead from then on, rows and all. */
  lemma RevokedRowsAreDead(run: seq<Timed>, i: nat, j: nat, f: Id)
    requires i < j <= |run| && f in At(run, i).families && Revokes(At(run, i), run[i].call, OutcomeAt(run, i), f)
    ensures Dead(At(run, j), f) && NoLiveRows(At(run, j), f)
    ensures j < |run| ==> !Admits(run[j].call, OutcomeAt(run, j), f)
  {
    hide Inv, Step, Revokes, Admits;
    StepEnds(run, i);
    Reachable(run, i);
    StepRows(At(run, i), run[i].call, run[i].now);
    assert At(run, i + 1) == Step(At(run, i), run[i].call, run[i].now).0;
    NothingIssued(At(run, i), run[i].call, OutcomeAt(run, i), f);
    hide EndsExactly, SameRows;
    RevokedIsDead(At(run, i), At(run, i + 1), run[i].call, OutcomeAt(run, i), f);
    hide At, Dead, NoLiveRows;
    DeadRowsForever(run, i + 1, j, f);
    RevokedForever(run, i + 1, j, f);
  }

  lemma NothingIssued(s: Store, call: Call, r: Outcome, f: Id)
    requires Revokes(s, call, r, f)
    ensures !r.Issued?
  {
    hide OwnsToken;
  }

  lemma RevokedIsDead(s: Store, t: Store, call: Call, r: Outcome, f: Id)
    requires f in s.families && EndsExactly(s, t, call, r) && SameRows(s, t) && Revokes(s, call, r, f)
    ensures Dead(t, f) && NoLiveRows(t, f)
  {
    hide Revokes, AccessEnds, RefreshEnds;
    assert FamilyEnds(s, t, call, r, f);
    forall g | Slot(f, g) in t.accesses ensures t.accesses[Slot(f, g)].status != SessionActive {
      RevokedSessionIsOver(s, t, call, r, Slot(f, g));
    }
    forall g | Slot(f, g) in t.refreshes ensures t.refreshes[Slot(f, g)].status != RefreshActive {
      RevokedCredentialIsOver(s, t, call, r, Slot(f, g));
    }
  }

  lemma RevokedSessionIsOver(s: Store, t: Store, call: Call, r: Outcome, k: Slot)
    requires k in s.accesses && AccessEnds(s, t, call, r, k) && Revokes(s, call, r, k.family)
    ensures t.accesses[k].status != SessionActive
  {
    hide Revokes;
  }

  lemma RevokedCredentialIsOver(s: Store, t: Store, call: Call, r: Outcome, k: Slot)
    requires k in s.refreshes && RefreshEnds(s, t, call, r, k) && Revokes(s, call, r, k.family)
    ensures t.refreshes[k].status != RefreshActive
  {
    hide Revokes;
  }

  /** A revocation that is answered with success takes: in every continuation the family is dead, no row of it is live, and none of its tokens gets in. */
  lemma RevocationTakes(run: seq<Timed>, i: nat, j: nat, user: Id, f: Id)
    requires i < j <= |run| && run[i].call == CallRevoke(user, f) && OutcomeAt(run, i) == Done
    ensures Dead(At(run, j), f) && NoLiveRows(At(run, j), f)
    ensures j < |run| ==> !Admits(run[j].call, OutcomeAt(run, j), f)
  {
    hide At, OutcomeAt, Dead, NoLiveRows, Admits;
    RevocationIff(run, i, user, f);
    RevokedRowsAreDead(run, i, j, f);
  }

  // Used tokens.

  /** A refresh token that was used already comes back, and all else is in order. */
  ghost predicate UsedTokenAt(run: seq<Timed>, i: nat, k: Slot) {
    && i < |run| && run[i].call.CallRotate? && run[i].call.policy.Valid() && run[i].call.rotate.server == run[i].call.policy.server
    && var s, q := At(run, i), run[i].call.rotate;
    && k in s.refreshes && s.refreshes[k].token == q.token && k in s.rotations && q.generation == k.generation
    && Alive(s, k.family) && s.families[k.family].device == q.device && s.families[k.family].server == q.server
  }

  ghost predicate MayRecover(rotation: Rotation, transaction: Id, key: Id, now: int) {
    rotation.transaction == transaction && now < Instant(rotation.resultExpiresAt) && rotation.result.Sealed? && rotation.result.key == key
  }

  lemma UsedTokenOutcome(s: Store, k: Slot, key: Id, p: Policy, q: RotateRequest, draw: Draw, now: int)
    requires Inv(s) && k in s.refreshes && s.refreshes[k].token == q.token && k in s.rotations && q.generation == k.generation
    requires p.Valid() && q.server == p.server && Alive(s, k.family) && s.families[k.family].device == q.device && s.families[k.family].server == q.server
    ensures var (t, r) := Step(s, CallRotate(key, p, q, draw), now);
      if MayRecover(s.rotations[k], q.transaction, key, now) then r == Issued(s.rotations[k].result.plaintext) && t == s
      else
        && r == Failed(if s.rotations[k].transaction != q.transaction then RefreshReplay else RotationRecoveryFailed)
        && k in t.rotations && t.rotations[k].status == FamilyRevoked
        && (r == Failed(RotationRecoveryFailed) && Instant(s.rotations[k].resultExpiresAt) <= now ==> t.rotations[k].result.Blank?)
  {
    hide Inv, MintNext, RevokeRows, Describes, Instant;
    RefreshParts(s, k);
    assert ResultInv(s) by { InvParts(s); }
    assert RotationResult(s, k, s.rotations[k].result);
    hide ResultInv, RotationResult;
  }

  /**
   A used refresh token is answered again exactly under its own transaction, in its window
   and with its key, and then changes nothing. Every other use of it is fatal: the family is
   dead in every continuation, its rows with it.
   */
  lemma UsedTokenIff(run: seq<Timed>, i: nat, j: nat, k: Slot)
    requires UsedTokenAt(run, i, k) && i < j <= |run|
    ensures var rotation, call := At(run, i).rotations[k], run[i].call;
      if MayRecover(rotation, call.rotate.transaction, call.key, run[i].now)
      then OutcomeAt(run, i) == Issued(rotation.result.plaintext) && At(run, i + 1) == At(run, i)
      else
        && OutcomeAt(run, i) == Failed(if rotation.transaction != call.rotate.transaction then RefreshReplay else RotationRecoveryFailed)
        && k in At(run, i + 1).rotations && At(run, i + 1).rotations[k].status == FamilyRevoked
        && Dead(At(run, j), k.family) && NoLiveRows(At(run, j), k.family)
  {
    hide Inv, Step, MayRecover, Dead, NoLiveRows;
    Reachable(run, i);
    var call := run[i].call;
    UsedTokenOutcome(At(run, i), k, call.key, call.policy, call.rotate, call.draw, run[i].now);
    assert At(run, i + 1) == Step(At(run, i), call, run[i].now).0;
    hide At;
    if !MayRecover(At(run, i).rotations[k], call.rotate.transaction, call.key, run[i].now) {
      assert OwnsToken(At(run, i), k.family, call.rotate.token);
      RevokedRowsAreDead(run, i, j, k.family);
    }
  }

  // Passwords, accounts and devices.

  lemma PasswordChangeStep(s: Store, user: Id, keep: Option<Id>, now: int, f: Id)
    requires f in s.families
    ensures var t := Step(s, CallChangePassword(user, keep), now).0;
      && t == s.(families := t.families) && t.families.Keys == s.families.Keys
      && if s.families[f].user == user && keep != Some(f) then Dead(t, f) else t.families[f] == s.families[f]
  {
  }

  /** A password change kills every family of the account but the kept one, and no other. */
  lemma PasswordChangeKills(run: seq<Timed>, i: nat, j: nat, user: Id, keep: Option<Id>, f: Id)
    requires i < j <= |run| && run[i].call == CallChangePassword(user, keep) && f in At(run, i).families
    ensures if At(run, i).families[f].user == user && keep != Some(f)
            then Dead(At(run, j), f) && (j < |run| ==> !Admits(run[j].call, OutcomeAt(run, j), f))
            else f in At(run, i + 1).families && At(run, i + 1).families[f] == At(run, i).families[f]
    ensures var s, t := At(run, i), At(run, i + 1); t == s.(families := t.families) && t.families.Keys == s.families.Keys
  {
    hide Admits, Step, Dead;
    PasswordChangeStep(At(run, i), user, keep, run[i].now, f);
    assert At(run, i + 1) == Step(At(run, i), run[i].call, run[i].now).0;
    hide At;
    if At(run, i).families[f].user == user && keep != Some(f) { RevokedForever(run, i + 1, j, f); }
  }

  /** A revoked device stays revoked, whatever comes: no family on it is let in, and no exchange founds one. */
  lemma DeviceRevokedForever(run: seq<Timed>, i: nat, j: nat, d: Id)
    requires i < j <= |run| && run[i].call == CallRevokeDevice(d) && d in At(run, i).devices
    ensures d in At(run, j).devices && !At(run, j).devices[d].active
    ensures forall f :: j < |run| && f in At(run, j).families && At(run, j).families[f].device == d ==> !Admits(run[j].call, OutcomeAt(run, j), f)
    ensures j < |run| && EntersAt(run, j) ==> OutcomeAt(run, j).credentials.device != d
  {
    hide Inv, Step, EntersAt, FreshRows, FreshAnswer;
    DeviceIsRevoked(At(run, i), d, run[i].now);
    assert At(run, i + 1) == Step(At(run, i), run[i].call, run[i].now).0;
    History(run, i + 1, j);
    hide At;
    if j < |run| {
      Reachable(run, j);
      EntersAlive(At(run, j), run[j].call, run[j].now);
      if EntersAt(run, j) {
        EntryDevice(run, j);
        History(run, j, j + 1);
      }
    }
  }

  lemma EntryDevice(run: seq<Timed>, i: nat)
    requires EntersAt(run, i)
    ensures var d := OutcomeAt(run, i).credentials.device; d in At(run, i + 1).devices && At(run, i + 1).devices[d].active
  {
    hide At, OutcomeAt, FreshRows, FreshAnswer;
    EntryLives(run, i);
  }

  lemma DeviceIsRevoked(s: Store, d: Id, now: int)
    requires d in s.devices
    ensures var t := Step(s, CallRevokeDevice(d), now).0; d in t.devices && !t.devices[d].active
  {
  }

  lemma TransactUsers(s: Store, call: Call, now: int)
    ensures Transact(s, call, now).0.users == if call.CallSetUser? then s.users[call.user := call.active] else s.users
  {
    hide Start, Poll, ExpireByCode, Review, Decide, SweepResults, SweepGrants, Exchange, Rotate, Authenticate, RevokeRows, Erased;
    match call
    case CallStart(p, q, draws) => StartUsers(s, p, q, draws, now);
    case CallPoll(code, server) => PollUsers(s, code, server, now);
    case CallExchange(key, p, q, draw) => ExchangeUsers(s, key, p, q, draw, now);
    case CallRotate(key, p, q, draw) => RotateUsers(s, key, p, q, draw, now);
    case CallAuthenticate(token, server) => AuthenticateUsers(s, token, server, now);
    case CallRevoke(_, f) => if f in s.families { RevokedUsers(s, f); }
    case CallChangePassword(_, _) =>
    case CallSetUser(_, _) =>
    case CallRevokeDevice(_) =>
    case CallSweepRotations(_) =>
    case _ => GrantCallsTouchGrants(s, call, now);
  }

  lemma RevokedUsers(s: Store, f: Id)
    requires f in s.families
    ensures RevokeRows(s, f).users == s.users
  {
  }

  lemma StartUsers(s: Store, p: Policy, q: StartRequest, draws: seq<GrantDraw>, now: int)
    ensures Start(s, p, q, draws, now).0.users == s.users
  {
    hide DropRetained, ExpireOverdue, FirstFree, ActiveGrants, NewGrant, Span, Policy.Valid;
  }

  lemma PollUsers(s: Store, code: Id, server: Id, now: int)
    ensures Poll(s, code, server, now).0.users == s.users
  {
    hide PassGate, ExpireGrant, Instant, KeepsAll;
    var id := GrantOfCode(s.grants, code);
    if id.Some? { GateSameTables(s, id.value, now); }
  }

  lemma ExchangeUsers(s: Store, key: Id, p: Policy, q: ExchangeRequest, draw: Draw, now: int)
    ensures Exchange(s, key, p, q, draw, now).0.users == s.users
  {
    hide PassGate, ExpireGrant, Instant, KeepsAll, RecoverExchange, FirstCollides;
    var id := GrantOfCode(s.grants, q.deviceCode);
    if id.Some? { GateSameTables(s, id.value, now); }
  }

  lemma RotateUsers(s: Store, key: Id, p: Policy, q: RotateRequest, draw: Draw, now: int)
    ensures Rotate(s, key, p, q, draw, now).0.users == s.users
  {
    hide NextCredentials, SlotCollides, TransactionUsed;
  }

  lemma AuthenticateUsers(s: Store, token: Id, server: Id, now: int)
    ensures Authenticate(s, token, server, now).0.users == s.users
  {
  }

  lemma {:induction false} DisabledStays(run: seq<Timed>, i: nat, j: nat, user: Id)
    requires i < j <= |run| && run[i].call == CallSetUser(user, false)
    requires forall m :: i < m < j ==> run[m].call != CallSetUser(user, true)
    ensures !UserActive(At(run, j), user)
    decreases j
  {
    hide Transact;
    TransactUsers(At(run, j - 1), run[j - 1].call, run[j - 1].now);
    if i < j - 1 {
      DisabledStays(run, i, j - 1, user);
    } else {
      DisablingCommits(At(run, i), user, run[i].now);
    }
  }

  lemma DisablingCommits(s: Store, user: Id, now: int)
    ensures Transact(s, CallSetUser(user, false), now).1 == Done
  {
  }

  /** A disabled account is let in nowhere, enters nothing and approves nothing until it is enabled again. */
  lemma DisabledUntilEnabled(run: seq<Timed>, i: nat, j: nat, user: Id)
    requires i < j < |run| && run[i].call == CallSetUser(user, false)
    requires forall m :: i < m < j ==> run[m].call != CallSetUser(user, true)
    ensures forall f :: f in At(run, j).families && At(run, j).families[f].user == user ==> !Admits(run[j].call, OutcomeAt(run, j), f)
    ensures EntersAt(run, j) ==> OutcomeAt(run, j).credentials.user != user
    ensures run[j].call.CallDecide? && run[j].call.approver == Some(user) ==> OutcomeAt(run, j) == Failed(UserInactive)
  {
    hide Inv, Step, At, EntersAt, FreshRows, FreshAnswer;
    DisabledStays(run, i, j, user);
    Reachable(run, j);
    EntersAlive(At(run, j), run[j].call, run[j].now);
    if EntersAt(run, j) { EntersForActive(run, j); }
    if run[j].call.CallDecide? && run[j].call.approver == Some(user) { InactiveDecides(At(run, j), run[j].call, run[j].now); }
  }

  lemma InactiveDecides(s: Store, call: Call, now: int)
    requires call.CallDecide? && call.approver.Some? && !UserActive(s, call.approver.value)
    ensures Step(s, call, now).1 == Failed(UserInactive)
  {
  }

  lemma EntersForActive(run: seq<Timed>, i: nat)
    requires EntersAt(run, i)
    ensures UserActive(At(run, i), OutcomeAt(run, i).credentials.user)
  {
    hide Inv, Exchange, At, FreshRows, FreshAnswer, Insertable;
    EntryLives(run, i);
    Reachable(run, i);
    var s, call := At(run, i), run[i].call;
    var id := At(run, i + 1).families[OutcomeAt(run, i).credentials.family].authorization;
    FirstExchangeIff(s, id, call.key, call.policy, call.exchange, call.draw, run[i].now);
  }

  // Refusals tell the truth.

  /** The reason that a refusal of a refresh or access token gives is there: in the account, device or family behind it, or in its row. */
  ghost predicate Truthful(s: Store, f: Id, expiresAt: int, e: Error, now: int) {
    && f in s.families && s.families[f].user in s.users && s.families[f].device in s.devices
    && (e == UserInactive ==> !UserActive(s, s.families[f].user))
    && (e == DeviceRevoked ==> !s.devices[s.families[f].device].active)
    && (e == FamilyIsRevoked ==> !s.families[f].active)
    && (e == AccessExpired || e == RefreshHasExpired ==> Instant(expiresAt) <= now)
  }

  predicate GivesReason(e: Error) {
    e == UserInactive || e == DeviceRevoked || e == FamilyIsRevoked || e == AccessExpired || e == RefreshHasExpired
  }

  lemma RotateTruthful(s: Store, key: Id, p: Policy, q: RotateRequest, draw: Draw, now: int)
    requires Inv(s) && Rotate(s, key, p, q, draw, now).1.Failed? && GivesReason(Rotate(s, key, p, q, draw, now).1.error)
    ensures var k := SlotOfRefresh(s.refreshes, q.token); k.Some? && Truthful(s, k.value.family, s.refreshes[k.value].expiresAt, Rotate(s, key, p, q, draw, now).1.error, now)
  {
    hide Inv, Minted, NextCredentials, CondemnRotation, SlotCollides, TransactionUsed;
    var k := SlotOfRefresh(s.refreshes, q.token);
    if k.Some? { RefreshParts(s, k.value); }
  }

  lemma AuthenticateTruthful(s: Store, token: Id, server: Id, now: int)
    requires RowInv(s) && Authenticate(s, token, server, now).1.Failed? && GivesReason(Authenticate(s, token, server, now).1.error)
    ensures var k := SlotOfAccess(s.accesses, token); k.Some? && Truthful(s, k.value.family, s.accesses[k.value].expiresAt, Authenticate(s, token, server, now).1.error, now)
  {
  }

  /** The presented token is that of slot `k`. */
  ghost predicate Presents(s: Store, call: Call, k: Slot) {
    || (call.CallRotate? && k in s.refreshes && s.refreshes[k].token == call.rotate.token)
    || (call.CallAuthenticate? && k in s.accesses && s.accesses[k].token == call.token)
  }

  ghost function ExpiryOf(s: Store, call: Call, k: Slot): int
    requires Presents(s, call, k)
  {
    if call.CallRotate? then s.refreshes[k].expiresAt else s.accesses[k].expiresAt
  }

  /** In every run: whoever is told that an account, device or family is gone, or a token expired, is told the truth. */
  lemma RefusalsAreTrue(run: seq<Timed>, i: nat)
    requires i < |run| && (run[i].call.CallRotate? || run[i].call.CallAuthenticate?) && OutcomeAt(run, i).Failed? && GivesReason(OutcomeAt(run, i).error)
    ensures var s, call, e, now := At(run, i), run[i].call, OutcomeAt(run, i).error, run[i].now;
      exists k :: Presents(s, call, k) && Truthful(s, k.family, ExpiryOf(s, call, k), e, now)
  {
    hide Inv, At, Rotate, Authenticate, Truthful;
    Reachable(run, i);
    var s, call := At(run, i), run[i].call;
    assert RowInv(s) by { InvParts(s); }
    if call.CallRotate? {
      RotateTruthful(s, call.key, call.policy, call.rotate, call.draw, run[i].now);
      assert Presents(s, call, SlotOfRefresh(s.refreshes, call.rotate.token).value);
    } else {
      AuthenticateTruthful(s, call.token, call.server, run[i].now);
      assert Presents(s, call, SlotOfAccess(s.accesses, call.token).value);
    }
  }

  // Stored results.

  /** The call drops the stored result of slot `k`: a sweep that picks it when it has run out, or a late retry. */
  ghost predicate Drops(s: Store, call: Call, r: Outcome, now: int, k: Slot)
    requires k in s.rotations
  {
    && s.rotations[k].resultExpiresAt <= Seconds(now)
    && ((call.CallSweepRotations? && k in call.slots)
        || (call.CallRotate? && r == Failed(RotationRecoveryFailed) && s.rotations[k].transaction == call.rotate.transaction
            && k in s.refreshes && s.refreshes[k].token == call.rotate.token))
  }

  /** A rotation record keeps all it has, but for its result when it is dropped and its status when its token is misused. */
  ghost predicate RecordMoves(s: Store, t: Store, call: Call, r: Outcome, now: int, k: Slot)
    requires k in s.rotations
  {
    && k in t.rotations && t.rotations[k].transaction == s.rotations[k].transaction && t.rotations[k].resultExpiresAt == s.rotations[k].resultExpiresAt
    && t.rotations[k].result == if Drops(s, call, r, now, k) then Blank else s.rotations[k].result
  }

  lemma SweepDrops(s: Store, slots: set<Slot>, now: int, k: Slot)
    requires k in s.rotations
    ensures RecordMoves(s, SweepRotations(s, slots, now), CallSweepRotations(slots), Swept, now, k)
  {
    hide Seconds;
  }

  lemma RotateDrops(s: Store, key: Id, p: Policy, q: RotateRequest, draw: Draw, now: int, k: Slot)
    requires UniqueInv(s) && k in s.rotations
    ensures var (t, r) := Rotate(s, key, p, q, draw, now); RecordMoves(s, t, CallRotate(key, p, q, draw), r, now, k)
  {
    hide RevokeRows, NextCredentials, SlotCollides, TransactionUsed, UniqueInv, RecoverRotation, MintNext;
    var found := SlotOfRefresh(s.refreshes, q.token);
    if found.Some? && RotateRefusal(s, found.value, q).None? {
      if k in s.refreshes { TokenNames(s, found.value, k); }
      if found.value in s.rotations {
        RecoveryDrops(s, found.value, key, p, q, draw, now, k);
      } else {
        MintDropsNothing(s, found.value, key, p, q, draw, now, k);
      }
    }
  }

  lemma RecoveryDrops(s: Store, l: Slot, key: Id, p: Policy, q: RotateRequest, draw: Draw, now: int, k: Slot)
    requires k in s.rotations && l in s.rotations && l.family in s.families && l in s.refreshes && s.refreshes[l].token == q.token
    requires k in s.refreshes && s.refreshes[k].token == q.token ==> k == l
    ensures var (t, r) := RecoverRotation(s, l, key, q, now); RecordMoves(s, t, CallRotate(key, p, q, draw), r, now, k)
  {
    hide RevokeRows;
    StoredComparison(s.rotations[l].resultExpiresAt, now);
    hide Seconds, Instant;
  }

  lemma MintDropsNothing(s: Store, l: Slot, key: Id, p: Policy, q: RotateRequest, draw: Draw, now: int, k: Slot)
    requires k in s.rotations && l !in s.rotations && l in s.refreshes && Joined(s, l)
    ensures var (t, r) := MintNext(s, l, key, p, q, draw, now); RecordMoves(s, t, CallRotate(key, p, q, draw), r, now, k)
  {
    hide SlotCollides, TransactionUsed, NextCredentials, Seconds, Instant;
  }

  /** In every step of every run, a stored rotation result is dropped by exactly these calls. */
  lemma RecordsMove(run: seq<Timed>, i: nat, k: Slot)
    requires i < |run| && k in At(run, i).rotations
    ensures RecordMoves(At(run, i), At(run, i + 1), run[i].call, OutcomeAt(run, i), run[i].now, k)
  {
    hide Inv, UniqueInv, At, Transact, RecordMoves;
    Reachable(run, i);
    InvParts(At(run, i));
    TransactDrops(At(run, i), run[i].call, run[i].now, k);
    AtNext(run, i);
    if !ShouldCommit(OutcomeAt(run, i)) { RolledBackDropsNothing(At(run, i), run[i].call, OutcomeAt(run, i), run[i].now, k); }
  }

  lemma AtNext(run: seq<Timed>, i: nat)
    requires i < |run|
    ensures At(run, i + 1) == Step(At(run, i), run[i].call, run[i].now).0
  {
    hide Step;
  }

  lemma RolledBackDropsNothing(s: Store, call: Call, r: Outcome, now: int, k: Slot)
    requires k in s.rotations && !ShouldCommit(r) && !call.CallSweepRotations?
    ensures RecordMoves(s, s, call, r, now, k)
  {
  }

  lemma TransactDrops(s: Store, call: Call, now: int, k: Slot)
    requires UniqueInv(s) && k in s.rotations
    ensures var (t, r) := Transact(s, call, now); RecordMoves(s, t, call, r, now, k)
    ensures call.CallSweepRotations? ==> ShouldCommit(Transact(s, call, now).1)
  {
    hide UniqueInv, Start, ExpireByCode, Review, Decide, Poll, Exchange, Rotate, Authenticate, Revoke, ChangePassword, SweepRotations, SweepResults, SweepGrants, Seconds;
    match call
    case CallRotate(key, p, q, draw) => RotateDrops(s, key, p, q, draw, now, k);
    case CallSweepRotations(slots) => SweepDrops(s, slots, now, k);
    case CallExchange(key, p, q, draw) => ExchangeKeepsRotations(s, key, p, q, draw, now);
    case _ => OthersKeepRotations(s, call, now);
  }
}
