/**
 Whole runs of the device-session service: any calls, by anyone, in any order, from the
 empty store.
 */
module DeviceRuns {
  import opened Wrappers
  import opened Clock
  import opened DeviceTables
  import opened DeviceTransactions
  import opened DeviceInvariant
  import opened DeviceSteps
  import opened DeviceRows

  datatype Timed = Timed(call: Call, now: int)

  ghost function At(run: seq<Timed>, i: nat): Store
    requires i <= |run|
  {
    if i == 0 then EMPTY else Step(At(run, i - 1), run[i - 1].call, run[i - 1].now).0
  }

  ghost function OutcomeAt(run: seq<Timed>, i: nat): Outcome
    requires i < |run|
  {
    Step(At(run, i), run[i].call, run[i].now).1
  }

  /** Every reachable store satisfies the invariant. */
  lemma {:induction false} Reachable(run: seq<Timed>, i: nat)
    requires i <= |run|
    ensures Inv(At(run, i))
  {
    hide Inv, Step, Extends, Describes;
    if i == 0 {
      EmptyInv();
    } else {
      Reachable(run, i - 1);
      StepIsSound(At(run, i - 1), run[i - 1].call, run[i - 1].now);
    }
  }

  lemma {:induction false} History(run: seq<Timed>, i: nat, j: nat)
    requires i <= j <= |run|
    ensures Extends(At(run, i), At(run, j))
    decreases j
  {
    hide Inv, Step, Extends, Describes;
    if i == j {
      ExtendsIsReflexive(At(run, i));
    } else {
      History(run, i, j - 1);
      Reachable(run, j - 1);
      StepIsSound(At(run, j - 1), run[j - 1].call, run[j - 1].now);
      ExtendsIsTransitive(At(run, i), At(run, j - 1), At(run, j));
    }
  }

  // One unbroken chain per family.

  /**
   The rows of a family are generations 0 to n, once each, with a rotation record for every
   generation but the last; only the last may be live.
   */
  lemma FamilyIsAChain(run: seq<Timed>, i: nat, f: Id) returns (n: nat)
    requires i <= |run| && f in At(run, i).families
    ensures var s := At(run, i);
            && (forall g :: Slot(f, g) in s.refreshes <==> 0 <= g <= n)
            && (forall g :: Slot(f, g) in s.accesses <==> 0 <= g <= n)
            && (forall g :: Slot(f, g) in s.rotations <==> 0 <= g < n)
            && (forall g :: Slot(f, g) in s.refreshes && s.refreshes[Slot(f, g)].status == RefreshActive ==> g == n)
            && (forall g :: Slot(f, g) in s.accesses && s.accesses[Slot(f, g)].status == SessionActive ==> g == n)
  {
    hide At, Inv, ChainInv;
    Reachable(run, i);
    InvParts(At(run, i));
    n := ChainOf(At(run, i), f);
    hide UniqueInv, RowInv, ResultInv, GrantInv, CodeInv, CapacityInv;
  }

  /** No transaction id names two rotations, and no token two rows, anywhere in the store. */
  lemma KeysAreGloballyUnique(run: seq<Timed>, i: nat)
    requires i <= |run|
    ensures UniqueInv(At(run, i)) && CodeInv(At(run, i).grants)
  {
    hide Inv, At, UniqueInv, CodeInv;
    Reachable(run, i);
    InvParts(At(run, i));
  }

  /** The credentials `c` are, or were until erased, what is stored for recovery at their place in the chain. */
  ghost predicate Recorded(s: Store, c: Credentials) {
    if c.generation == 0 then
      c.family in s.families &&
      var id := s.families[c.family].authorization;
      id in s.grants && s.grants[id].status == Consumed && (s.grants[id].result.Sealed? ==> s.grants[id].result.plaintext == c)
    else
      var k := Slot(c.family, c.generation - 1);
      k in s.rotations && (s.rotations[k].result.Sealed? ==> s.rotations[k].result.plaintext == c)
  }

  lemma RecordedLasts(s: Store, t: Store, c: Credentials)
    requires Extends(s, t) && Recorded(s, c)
    ensures Recorded(t, c)
  {
  }

  /** First credentials on record, for the grant that `code` names. */
  ghost predicate RecordedUnderCode(s: Store, c: Credentials, code: Id) {
    && c.generation == 0 && Recorded(s, c)
    && s.grants[s.families[c.family].authorization].deviceCode == code
  }

  /** Nothing other than `d` is on record at the place of `d`. */
  ghost predicate OnlyRecorded(s: Store, d: Credentials) {
    forall c :: Recorded(s, c) && c.family == d.family && c.generation == d.generation ==> c == d
  }

  lemma RotateRecords(s: Store, key: Id, p: Policy, q: RotateRequest, draw: Draw, now: int)
    requires Inv(s)
    ensures var (t, r) := Rotate(s, key, p, q, draw, now);
            r.Issued? ==> r.credentials.generation > 0 && Recorded(t, r.credentials) && OnlyRecorded(s, r.credentials)
  {
    hide Inv, Describes;
    var (t, r) := Rotate(s, key, p, q, draw, now);
    if r.Issued? {
      var k := SlotOfRefresh(s.refreshes, q.token).value;
      if k in s.rotations {
        assert ResultInv(s) by { InvParts(s); }
        assert RotationResult(s, k, s.rotations[k].result);
        assert k.generation >= 0;
      }
    }
  }

  lemma ExchangeRecords(s: Store, key: Id, p: Policy, q: ExchangeRequest, draw: Draw, now: int)
    requires Inv(s)
    ensures var (t, r) := Exchange(s, key, p, q, draw, now);
            r.Issued? ==> r.credentials.generation == 0 && RecordedUnderCode(t, r.credentials, q.deviceCode) && OnlyRecorded(s, r.credentials)
  {
    hide Inv, Describes, ExchangeOpen, GrantShape, ExchangeResult, OnlyRecorded;
    var id := GrantOfCode(s.grants, q.deviceCode);
    assert GrantInv(s) by { InvParts(s); }
    if id.Some? {
      assert GrantShape(s, id.value) && ExchangeResult(s, id.value);
      hide GrantInv;
      if s.grants[id.value].status == Consumed {
        RecoveredIsRecorded(s, id.value, key, p, q, now);
      } else {
        OpenExchangeRecords(s, id.value, key, p, q, draw, now);
      }
    }
  }

  lemma RecoveredIsRecorded(s: Store, id: Id, key: Id, p: Policy, q: ExchangeRequest, now: int)
    requires GrantInv(s) && id in s.grants && s.grants[id].status == Consumed && s.grants[id].deviceCode == q.deviceCode
    ensures var r := RecoverExchange(s.grants[id], id, key, p, q, now);
            r.Issued? ==> r.credentials.generation == 0 && RecordedUnderCode(s, r.credentials, q.deviceCode) && OnlyRecorded(s, r.credentials)
  {
    hide Describes, Instant;
    assert ExchangeResult(s, id);
  }

  lemma OpenExchangeRecords(s: Store, id: Id, key: Id, p: Policy, q: ExchangeRequest, draw: Draw, now: int)
    requires id in s.grants && s.grants[id].status != Consumed && s.grants[id].deviceCode == q.deviceCode
    ensures var (t, r) := ExchangeOpen(s, id, key, p, q, draw, now);
            r.Issued? ==> r.credentials.generation == 0 && RecordedUnderCode(t, r.credentials, q.deviceCode) && OnlyRecorded(s, r.credentials)
  {
    hide PassGate, ExpireGrant, Instant, Seconds, Span, HasFamily, SlotCollides, DeviceOf;
    PassGateKeepsTables(s, id, now);
  }

  lemma PassGateKeepsTables(s: Store, id: Id, now: int)
    requires id in s.grants
    ensures var t := PassGate(s, id, now).0;
            t == s.(grants := t.grants) && id in t.grants
            && t.grants[id] == s.grants[id].(nextPollAt := t.grants[id].nextPollAt, updatedAt := t.grants[id].updatedAt)
  {
  }

  lemma StepRecords(s: Store, call: Call, now: int)
    requires Inv(s)
    ensures var (t, r) := Step(s, call, now);
            r.Issued? ==> Recorded(t, r.credentials) && OnlyRecorded(s, r.credentials)
  {
    hide Inv, Recorded, Rotate, Exchange, Start, Review, Poll, Authenticate;
    match call
    case CallRotate(key, p, q, draw) => RotateRecords(s, key, p, q, draw, now);
    case CallExchange(key, p, q, draw) => ExchangeRecords(s, key, p, q, draw, now);
    case CallStart(p, q, draws) => StartIssuesNothing(s, p, q, draws, now);
    case CallReview(code, server) => OthersIssueNothing(s, code, server, now);
    case CallPoll(code, server) => OthersIssueNothing(s, code, server, now);
    case CallAuthenticate(token, server) => OthersIssueNothing(s, token, server, now);
    case _ =>
  }

  lemma StartIssuesNothing(s: Store, p: Policy, q: StartRequest, draws: seq<GrantDraw>, now: int)
    ensures !Start(s, p, q, draws, now).1.Issued?
  {
    hide DropRetained, ExpireOverdue, FirstFree, ActiveGrants, NewGrant;
  }

  lemma OthersIssueNothing(s: Store, code: Id, server: Id, now: int)
    ensures !Review(s, code, server).Issued? && !Poll(s, code, server, now).1.Issued?
    ensures !Authenticate(s, code, server, now).1.Issued?
  {
    hide PassGate, ExpireGrant;
  }

  /**
   The chain never forks: whenever two calls of a run hand out credentials of the same
   family and generation, first issue, rotation, retry or recovery, they are the same credentials.
   */
  lemma ChainNeverForks(run: seq<Timed>, i: nat, j: nat)
    requires i <= j < |run| && OutcomeAt(run, i).Issued? && OutcomeAt(run, j).Issued?
    requires OutcomeAt(run, i).credentials.family == OutcomeAt(run, j).credentials.family
    requires OutcomeAt(run, i).credentials.generation == OutcomeAt(run, j).credentials.generation
    ensures OutcomeAt(run, i) == OutcomeAt(run, j)
  {
    hide Inv, Step, Recorded, Extends;
    if i < j {
      var c := OutcomeAt(run, i).credentials;
      Reachable(run, i);
      StepRecords(At(run, i), run[i].call, run[i].now);
      assert At(run, i + 1) == Step(At(run, i), run[i].call, run[i].now).0;
      History(run, i + 1, j);
      RecordedLasts(At(run, i + 1), At(run, j), c);
      Reachable(run, j);
      StepRecords(At(run, j), run[j].call, run[j].now);
    }
  }

  /** Credentials handed out at any time are the ones the stored rows of their generation were written for, then and ever after. */
  lemma CredentialsMatchRows(run: seq<Timed>, i: nat, j: nat)
    requires i < j <= |run| && OutcomeAt(run, i).Issued?
    ensures Describes(At(run, j), OutcomeAt(run, i).credentials)
  {
    hide Inv, Step, Extends, Describes;
    Reachable(run, i);
    StepIsSound(At(run, i), run[i].call, run[i].now);
    assert At(run, i + 1) == Step(At(run, i), run[i].call, run[i].now).0;
    History(run, i + 1, j);
    DescribesLasts(At(run, i + 1), At(run, j), OutcomeAt(run, i).credentials);
  }

  // Replay and revocation.

  ghost predicate Dead(s: Store, f: Id) {
    f in s.families && !s.families[f].active
  }

  ghost predicate NoLiveRows(s: Store, f: Id) {
    && (forall g :: Slot(f, g) in s.accesses ==> s.accesses[Slot(f, g)].status != SessionActive)
    && (forall g :: Slot(f, g) in s.refreshes ==> s.refreshes[Slot(f, g)].status != RefreshActive)
  }

  /** A call that lets someone in: an authenticated access, or credentials from a refresh token. */
  ghost predicate Admits(call: Call, r: Outcome, f: Id) {
    || (r.Authenticated? && r.identity.family == f)
    || (call.CallRotate? && r.Issued? && r.credentials.family == f)
  }

  lemma DeadRefusesRotate(s: Store, key: Id, p: Policy, q: RotateRequest, draw: Draw, now: int, f: Id)
    requires Inv(s) && Dead(s, f)
    ensures var r := Rotate(s, key, p, q, draw, now).1; !(r.Issued? && r.credentials.family == f)
  {
    var r := Rotate(s, key, p, q, draw, now).1;
    hide Inv, Describes;
    if r.Issued? {
      var k := SlotOfRefresh(s.refreshes, q.token).value;
      assert s.families[k.family].active;
      assert ResultInv(s) by { InvParts(s); }
      if k in s.rotations {
        assert RotationResult(s, k, s.rotations[k].result);
      }
    }
  }

  lemma DeadAdmitsNothing(s: Store, call: Call, now: int, f: Id)
    requires Inv(s) && Dead(s, f)
    ensures !Admits(call, Step(s, call, now).1, f)
  {
    hide Inv, Rotate, Exchange, Start, Review, Poll;
    match call
    case CallRotate(key, p, q, draw) =>
      DeadRefusesRotate(s, key, p, q, draw, now, f);
      RotateIsNoLogin(s, key, p, q, draw, now);
    case CallExchange(key, p, q, draw) => ExchangeIsNoLogin(s, key, p, q, draw, now);
    case CallStart(p, q, draws) => StartIsNoLogin(s, p, q, draws, now);
    case CallReview(code, server) => OthersAreNoLogin(s, code, server, now);
    case CallPoll(code, server) => OthersAreNoLogin(s, code, server, now);
    case _ =>
  }

  lemma RotateIsNoLogin(s: Store, key: Id, p: Policy, q: RotateRequest, draw: Draw, now: int)
    ensures !Rotate(s, key, p, q, draw, now).1.Authenticated?
  {
    hide Minted, NextCredentials, CondemnRotation;
  }

  lemma ExchangeIsNoLogin(s: Store, key: Id, p: Policy, q: ExchangeRequest, draw: Draw, now: int)
    ensures !Exchange(s, key, p, q, draw, now).1.Authenticated?
  {
    hide PassGate, ExpireGrant, FirstCollides, FirstCredentials;
  }

  lemma StartIsNoLogin(s: Store, p: Policy, q: StartRequest, draws: seq<GrantDraw>, now: int)
    ensures !Start(s, p, q, draws, now).1.Authenticated?
  {
    hide DropRetained, ExpireOverdue, FirstFree, ActiveGrants, NewGrant;
  }

  lemma OthersAreNoLogin(s: Store, code: Id, server: Id, now: int)
    ensures !Review(s, code, server).Authenticated? && !Poll(s, code, server, now).1.Authenticated?
  {
    hide PassGate, ExpireGrant;
  }

  /** Revocation is permanent: from a store in which a family is revoked, no continuation lets any of its tokens in. */
  lemma RevokedForever(run: seq<Timed>, i: nat, j: nat, f: Id)
    requires i <= j <= |run| && Dead(At(run, i), f)
    ensures Dead(At(run, j), f)
    ensures j < |run| ==> !Admits(run[j].call, OutcomeAt(run, j), f)
  {
    hide Inv, Step, At;
    History(run, i, j);
    Reachable(run, j);
    if j < |run| {
      hide Extends, Admits;
      DeadAdmitsNothing(At(run, j), run[j].call, run[j].now, f);
    }
  }

  lemma DeadRowsStayDead(s: Store, call: Call, now: int, f: Id)
    requires Inv(s) && Dead(s, f) && NoLiveRows(s, f)
    ensures NoLiveRows(Step(s, call, now).0, f)
  {
    var (t, r) := Step(s, call, now);
    hide Inv, Step, Describes;
    StepIsSound(s, call, now);
    StepRows(s, call, now);
    forall g | Slot(f, g) in t.accesses ensures t.accesses[Slot(f, g)].status != SessionActive {
      assert Slot(f, g) in s.accesses;
    }
    forall g | Slot(f, g) in t.refreshes ensures t.refreshes[Slot(f, g)].status != RefreshActive {
      assert Slot(f, g) in s.refreshes;
    }
  }

  lemma {:induction false} DeadRowsForever(run: seq<Timed>, i: nat, j: nat, f: Id)
    requires i <= j <= |run| && Dead(At(run, i), f) && NoLiveRows(At(run, i), f)
    ensures NoLiveRows(At(run, j), f)
    decreases j
  {
    hide Inv, Step, Dead, NoLiveRows;
    if i < j {
      DeadRowsForever(run, i, j - 1, f);
      Reachable(run, j - 1);
      RevokedForever(run, i, j - 1, f);
      DeadRowsStayDead(At(run, j - 1), run[j - 1].call, run[j - 1].now, f);
    }
  }

  /** The call presents a refresh token that was already rotated, under another transaction id, and is otherwise in order. */
  ghost predicate IsReplay(s: Store, call: Call, k: Slot) {
    && call.CallRotate? && call.policy.Valid()
    && call.rotate.generation >= 0 && call.rotate.server == call.policy.server
    && SlotOfRefresh(s.refreshes, call.rotate.token) == Some(k)
    && RotateRefusal(s, k, call.rotate).None?
    && k in s.rotations && s.rotations[k].transaction != call.rotate.transaction
  }

  lemma ReplayRevokes(s: Store, call: Call, now: int, k: Slot)
    requires IsReplay(s, call, k)
    ensures var (t, r) := Step(s, call, now);
            r == Failed(RefreshReplay) && Dead(t, k.family) && NoLiveRows(t, k.family)
  {
    hide MintNext;
  }

  /**
   Using a rotated refresh token under a new transaction id revokes its whole family in that
   very transaction, and in every continuation none of its rows is live and none of its
   tokens authenticates, rotates or recovers.
   */
  lemma ReplayIsFatal(run: seq<Timed>, i: nat, j: nat, k: Slot)
    requires i < j <= |run| && IsReplay(At(run, i), run[i].call, k)
    ensures OutcomeAt(run, i) == Failed(RefreshReplay)
    ensures Dead(At(run, j), k.family) && NoLiveRows(At(run, j), k.family)
    ensures j < |run| ==> !Admits(run[j].call, OutcomeAt(run, j), k.family)
  {
    hide Inv, Step, Dead, NoLiveRows, Admits, IsReplay;
    ReplayRevokes(At(run, i), run[i].call, run[i].now, k);
    assert At(run, i + 1) == Step(At(run, i), run[i].call, run[i].now).0;
    DeadRowsForever(run, i + 1, j, k.family);
    RevokedForever(run, i + 1, j, k.family);
  }

  /** The replay error is raised for nothing else. */
  lemma ReplayErrorIff(s: Store, key: Id, p: Policy, q: RotateRequest, draw: Draw, now: int)
    ensures Step(s, CallRotate(key, p, q, draw), now).1 == Failed(RefreshReplay)
       <==> exists k :: IsReplay(s, CallRotate(key, p, q, draw), k)
  {
    hide Minted, NextCredentials, CondemnRotation, SlotCollides, TransactionUsed;
    if Step(s, CallRotate(key, p, q, draw), now).1 == Failed(RefreshReplay) {
      assert IsReplay(s, CallRotate(key, p, q, draw), SlotOfRefresh(s.refreshes, q.token).value);
    }
  }

  // Lifetimes.

  /** Every policy of the run is bounded by these access and idempotency times. */
  ghost predicate TtlsWithin(run: seq<Timed>, accessTtl: int, idempotencyTtl: int) {
    forall i :: 0 <= i < |run| && PolicyOf(run[i].call).Some? ==>
      PolicyOf(run[i].call).value.accessTtl <= accessTtl && PolicyOf(run[i].call).value.idempotencyTtl <= idempotencyTtl
  }

  ghost predicate Bounded(s: Store, accessTtl: int, idempotencyTtl: int) {
    && (forall k :: k in s.accesses && k.family in s.families ==>
          s.accesses[k].expiresAt <= s.families[k.family].absoluteExpiresAt + accessTtl)
    && (forall k :: k in s.rotations && k.family in s.families ==>
          s.rotations[k].resultExpiresAt <= s.families[k.family].absoluteExpiresAt + idempotencyTtl)
  }

  lemma ExtensionKeepsBound(s: Store, t: Store, r: Outcome, p: Option<Policy>, now: int, accessTtl: int, idempotencyTtl: int)
    requires Bounded(s, accessTtl, idempotencyTtl) && Extends(s, t)
    requires forall k :: (k in s.accesses || k in s.rotations) ==> k.family in s.families
    requires SameRows(s, t) || (r.Issued? && p.Some? && AddsGeneration(s, t, p.value, r.credentials, now))
    requires p.Some? ==> p.value.accessTtl <= accessTtl && p.value.idempotencyTtl <= idempotencyTtl
    ensures Bounded(t, accessTtl, idempotencyTtl)
  {
    forall k | k in t.accesses && k.family in t.families
      ensures t.accesses[k].expiresAt <= t.families[k.family].absoluteExpiresAt + accessTtl
    {
      if k in s.accesses { assert AccessFades(s.accesses[k], t.accesses[k]); }
    }
    forall k | k in t.rotations && k.family in t.families
      ensures t.rotations[k].resultExpiresAt <= t.families[k.family].absoluteExpiresAt + idempotencyTtl
    {
      if k in s.rotations { assert RotationFades(s.rotations[k], t.rotations[k]); }
    }
  }

  lemma StepKeepsBound(s: Store, call: Call, now: int, accessTtl: int, idempotencyTtl: int)
    requires Inv(s) && Bounded(s, accessTtl, idempotencyTtl)
    requires PolicyOf(call).Some? ==> PolicyOf(call).value.accessTtl <= accessTtl && PolicyOf(call).value.idempotencyTtl <= idempotencyTtl
    ensures Bounded(Step(s, call, now).0, accessTtl, idempotencyTtl)
  {
    var (t, r) := Step(s, call, now);
    assert ChainInv(s) by { InvParts(s); }
    assert forall k :: (k in s.accesses || k in s.rotations) ==> k.family in s.families;
    hide Inv, Step, Describes, ChainInv, PolicyOf, Extends, SameRows, AddsGeneration, Bounded;
    StepIsSound(s, call, now);
    StepRows(s, call, now);
    ExtensionKeepsBound(s, t, r, PolicyOf(call), now, accessTtl, idempotencyTtl);
  }

  lemma {:induction false} RunKeepsBound(run: seq<Timed>, i: nat, accessTtl: int, idempotencyTtl: int)
    requires i <= |run| && TtlsWithin(run, accessTtl, idempotencyTtl)
    ensures Bounded(At(run, i), accessTtl, idempotencyTtl)
  {
    hide Inv, Step, PolicyOf;
    if i > 0 {
      RunKeepsBound(run, i - 1, accessTtl, idempotencyTtl);
      Reachable(run, i - 1);
      hide Bounded;
      StepKeepsBound(At(run, i - 1), run[i - 1].call, run[i - 1].now, accessTtl, idempotencyTtl);
    }
  }

  /** The call at `i` is the first issue of family `f`, under policy `p`. */
  ghost predicate FirstIssue(run: seq<Timed>, i: nat, f: Id, p: Policy) {
    && i < |run|
    && OutcomeAt(run, i).Issued? && OutcomeAt(run, i).credentials.family == f
    && f !in At(run, i).families
    && PolicyOf(run[i].call) == Some(p)
  }

  lemma FirstIssueSetsAbsolute(run: seq<Timed>, i: nat, j: nat, f: Id, p: Policy)
    requires FirstIssue(run, i, f, p) && i < j <= |run|
    ensures f in At(run, j).families && At(run, j).families[f].absoluteExpiresAt == Seconds(run[i].now) + p.absoluteTtl
  {
    hide Inv, Step, PolicyOf;
    Reachable(run, i);
    StepRows(At(run, i), run[i].call, run[i].now);
    StepIsSound(At(run, i), run[i].call, run[i].now);
    assert At(run, i + 1) == Step(At(run, i), run[i].call, run[i].now).0;
    History(run, i + 1, j);
  }

  lemma AuthenticatedIsLive(s: Store, call: Call, now: int)
    requires Step(s, call, now).1.Authenticated?
    ensures var a := Step(s, call, now).1.identity;
            var k := Slot(a.family, a.generation);
            && call.CallAuthenticate?
            && k in s.accesses && a.family in s.families
            && s.accesses[k].status == SessionActive && now < Instant(s.accesses[k].expiresAt)
  {
    hide Rotate, Exchange, Start, Review, Poll;
    match call
    case CallRotate(key, p, q, draw) => RotateIsNoLogin(s, key, p, q, draw, now);
    case CallExchange(key, p, q, draw) => ExchangeIsNoLogin(s, key, p, q, draw, now);
    case CallStart(p, q, draws) => StartIsNoLogin(s, p, q, draws, now);
    case CallReview(code, server) => OthersAreNoLogin(s, code, server, now);
    case CallPoll(code, server) => OthersAreNoLogin(s, code, server, now);
    case _ =>
  }

  /**
   The absolute lifetime. Counting from the first issue of a family at time t0: no
   credentials of it are ever created at or after t0 + absolute TTL, every refresh expiry
   stays within the absolute expiry that never moves, and no access token of it
   authenticates at or after t0 + absolute TTL + access TTL.
   */
  lemma LifetimeIsBounded(run: seq<Timed>, i: nat, j: nat, f: Id, p: Policy, accessTtl: int, idempotencyTtl: int)
    requires FirstIssue(run, i, f, p) && i < j < |run| && TtlsWithin(run, accessTtl, idempotencyTtl)
    ensures OutcomeAt(run, j).Issued? && OutcomeAt(run, j).credentials.family == f ==>
              OutcomeAt(run, j).credentials.issuedAt < run[i].now + Span(p.absoluteTtl)
    ensures forall k :: k in At(run, j).refreshes && k.family == f ==>
              At(run, j).refreshes[k].expiresAt <= Seconds(run[i].now) + p.absoluteTtl
    ensures OutcomeAt(run, j).Authenticated? && OutcomeAt(run, j).identity.family == f ==>
              run[j].now < run[i].now + Span(p.absoluteTtl + accessTtl)
  {
    hide Inv, Step, PolicyOf, At;
    FirstIssueSetsAbsolute(run, i, j, f, p);
    Reachable(run, j);
    StepIsSound(At(run, j), run[j].call, run[j].now);
    assert RowInv(At(run, j)) by { InvParts(At(run, j)); }
    RunKeepsBound(run, j, accessTtl, idempotencyTtl);
    if OutcomeAt(run, j).Authenticated? {
      AuthenticatedIsLive(At(run, j), run[j].call, run[j].now);
    }
  }

  /** A rotation call that succeeds at all, by minting or by recovery, does so before the absolute expiry plus the idempotency time. */
  lemma RotationsCease(run: seq<Timed>, i: nat, j: nat, f: Id, p: Policy, accessTtl: int, idempotencyTtl: int)
    requires FirstIssue(run, i, f, p) && i < j < |run| && TtlsWithin(run, accessTtl, idempotencyTtl)
    requires run[j].call.CallRotate? && OutcomeAt(run, j).Issued? && OutcomeAt(run, j).credentials.family == f
    requires idempotencyTtl >= 0
    ensures run[j].now < run[i].now + Span(p.absoluteTtl + idempotencyTtl)
  {
    hide Inv, Step, PolicyOf, At;
    FirstIssueSetsAbsolute(run, i, j, f, p);
    Reachable(run, j);
    RunKeepsBound(run, j, accessTtl, idempotencyTtl);
    var call := run[j].call;
    assert ResultInv(At(run, j)) by { InvParts(At(run, j)); }
    RotationSucceedsInTime(At(run, j), call.key, call.policy, call.rotate, call.draw, run[j].now);
  }

  lemma RotationSucceedsInTime(s: Store, key: Id, p: Policy, q: RotateRequest, draw: Draw, now: int)
    requires ResultInv(s) && Step(s, CallRotate(key, p, q, draw), now).1.Issued?
    ensures var c := Step(s, CallRotate(key, p, q, draw), now).1.credentials;
            var k := Slot(c.family, c.generation - 1);
            && c.family in s.families
            && (now < Instant(s.families[c.family].absoluteExpiresAt)
                || (k in s.rotations && now < Instant(s.rotations[k].resultExpiresAt)))
  {
    var k := SlotOfRefresh(s.refreshes, q.token).value;
    hide CondemnRotation, Minted, SlotCollides, TransactionUsed, Describes;
    if k in s.rotations {
      assert RotationResult(s, k, s.rotations[k].result);
    }
  }

  // Access leases.

  lemma LeaseRow(s: Store, t: Store, token: Id, server: Id, now: int, a: Identity)
    requires Authenticate(s, token, server, now).1 == Authenticated(a)
    requires Extends(s, t)
    ensures var k := Slot(a.family, a.generation);
            && k in t.accesses && t.accesses[k].id == a.accessId && t.accesses[k].token == token
            && t.accesses[k].version == a.version && Instant(t.accesses[k].expiresAt) == a.expiresAt
            && a.family in t.families && t.families[a.family].user == a.user
            && t.families[a.family].device == a.device && t.families[a.family].server == a.server && a.server == server
  {
  }

  /**
   A lease taken when a token authenticated revalidates at any later store, at any time,
   exactly when that token would authenticate there and then, and then as the same identity.
   */
  lemma LeaseAgrees(s: Store, t: Store, token: Id, server: Id, taken: int, a: Identity, now: int)
    requires Authenticate(s, token, server, taken).1 == Authenticated(a)
    requires Extends(s, t) && Inv(t)
    ensures Revalidate(t, a, now) == Done <==> Authenticate(t, token, server, now).1 == Authenticated(a)
    ensures Revalidate(t, a, now) == Done <==> Authenticate(t, token, server, now).1.Authenticated?
  {
    hide Inv, Extends, Authenticate, Revalidate, RowInv, UniqueInv;
    InvParts(t);
    LeaseRow(s, t, token, server, taken, a);
    LeaseSlots(t, Slot(a.family, a.generation));
    AuthenticatesIff(t, token, server, now, a);
    RevalidatesIff(t, now, a);
  }

  /** The row of a lease is unrevoked and unexpired, and so is everything it hangs on. */
  ghost predicate LeaseGood(t: Store, a: Identity, now: int)
    requires Slot(a.family, a.generation) in t.accesses && a.family in t.families
  {
    && UserActive(t, t.families[a.family].user) && t.families[a.family].active
    && t.families[a.family].device in t.devices && t.devices[t.families[a.family].device].active
    && t.accesses[Slot(a.family, a.generation)].status == SessionActive && now < a.expiresAt
  }

  lemma LeaseSlots(t: Store, k: Slot)
    requires UniqueInv(t) && k in t.accesses
    ensures SlotOfAccess(t.accesses, t.accesses[k].token) == Some(k) && SlotOfAccessId(t.accesses, t.accesses[k].id) == Some(k)
  {
  }

  ghost predicate LeaseOf(t: Store, a: Identity) {
    var k := Slot(a.family, a.generation);
    && k in t.accesses && t.accesses[k].id == a.accessId && t.accesses[k].version == a.version && Instant(t.accesses[k].expiresAt) == a.expiresAt
    && a.family in t.families && t.families[a.family].user == a.user && t.families[a.family].device == a.device
    && t.families[a.family].server == a.server
  }

  lemma AuthenticatesIff(t: Store, token: Id, server: Id, now: int, a: Identity)
    requires RowInv(t) && LeaseOf(t, a) && a.server == server && SlotOfAccess(t.accesses, token) == Some(Slot(a.family, a.generation))
    ensures var r := Authenticate(t, token, server, now).1;
      (r.Authenticated? <==> LeaseGood(t, a, now)) && (r.Authenticated? ==> r.identity == a)
  {
  }

  lemma RevalidatesIff(t: Store, now: int, a: Identity)
    requires RowInv(t) && LeaseOf(t, a) && SlotOfAccessId(t.accesses, a.accessId) == Some(Slot(a.family, a.generation))
    ensures Revalidate(t, a, now) == Done <==> LeaseGood(t, a, now)
  {
  }

  lemma LeaseAgreesInRuns(run: seq<Timed>, i: nat, j: nat, now: int)
    requires i <= j <= |run| && i < |run| && run[i].call.CallAuthenticate? && OutcomeAt(run, i).Authenticated?
    ensures Revalidate(At(run, j), OutcomeAt(run, i).identity, now) == Done <==>
            Authenticate(At(run, j), run[i].call.token, run[i].call.server, now).1 == OutcomeAt(run, i)
  {
    hide Inv, Revalidate, Authenticate;
    History(run, i, j);
    Reachable(run, j);
    LeaseAgrees(At(run, i), At(run, j), run[i].call.token, run[i].call.server, run[i].now, OutcomeAt(run, i).identity, now);
  }

  // Authorizations.

  ghost predicate IsFamilyOf(s: Store, f: Id, id: Id) {
    f in s.families && s.families[f].authorization == id
  }

  /** In every reachable store a grant has exactly one family when it is consumed and none otherwise. */
  lemma GrantHasOneFamily(run: seq<Timed>, i: nat, id: Id)
    requires i <= |run| && id in At(run, i).grants
    ensures var s := At(run, i);
            && (s.grants[id].status == Consumed <==> exists f :: IsFamilyOf(s, f, id))
            && (forall f, h :: IsFamilyOf(s, f, id) && IsFamilyOf(s, h, id) ==> f == h)
  {
    hide Inv, At;
    Reachable(run, i);
    assert GrantInv(At(run, i)) by { InvParts(At(run, i)); }
    assert GrantShape(At(run, i), id);
    if f :| IsFamilyOf(At(run, i), f, id) {
      assert HasFamily(At(run, i).families, id);
    }
    if f :| f in At(run, i).families && At(run, i).families[f].authorization == id {
      assert IsFamilyOf(At(run, i), f, id);
    }
  }

  /** Any two successful exchanges of one device code hand out the same credentials. */
  lemma ExchangesAgree(run: seq<Timed>, i: nat, j: nat)
    requires i <= j < |run| && run[i].call.CallExchange? && run[j].call.CallExchange?
    requires run[i].call.exchange.deviceCode == run[j].call.exchange.deviceCode
    requires OutcomeAt(run, i).Issued? && OutcomeAt(run, j).Issued?
    ensures OutcomeAt(run, i) == OutcomeAt(run, j)
  {
    hide Inv, Step, Exchange, Extends;
    if i == j { return; }
    var c := OutcomeAt(run, i).credentials;
    Reachable(run, i);
    StepIsExchange(At(run, i), run[i].call, run[i].now);
    assert At(run, i + 1) == Step(At(run, i), run[i].call, run[i].now).0;
    History(run, i + 1, j);
    CodeRecordLasts(At(run, i + 1), At(run, j), c, run[i].call.exchange.deviceCode);
    Reachable(run, j);
    var call := run[j].call;
    ExchangeOfRecorded(At(run, j), call.key, call.policy, call.exchange, call.draw, run[j].now, c);
  }

  lemma StepIsExchange(s: Store, call: Call, now: int)
    requires Inv(s) && call.CallExchange? && Step(s, call, now).1.Issued?
    ensures RecordedUnderCode(Step(s, call, now).0, Step(s, call, now).1.credentials, call.exchange.deviceCode)
  {
    hide Inv, Exchange, RecordedUnderCode;
    ExchangeRecords(s, call.key, call.policy, call.exchange, call.draw, now);
  }

  lemma CodeRecordLasts(s: Store, t: Store, c: Credentials, code: Id)
    requires Extends(s, t) && RecordedUnderCode(s, c, code)
    ensures RecordedUnderCode(t, c, code)
  {
  }

  lemma ExchangeOfRecorded(s: Store, key: Id, p: Policy, q: ExchangeRequest, draw: Draw, now: int, c: Credentials)
    requires Inv(s) && RecordedUnderCode(s, c, q.deviceCode)
    ensures var r := Step(s, CallExchange(key, p, q, draw), now).1; r.Issued? ==> r.credentials == c
  {
    hide Inv, PassGate, IssueFirst;
    assert CodeInv(s.grants) by { InvParts(s); }
    assert GrantOfCode(s.grants, q.deviceCode) == Some(s.families[c.family].authorization);
  }

  /** At most 500 grants of a server are ever waiting for a decision or an exchange. */
  lemma CapacityHolds(run: seq<Timed>, i: nat, server: Id)
    requires i <= |run|
    ensures |ActiveGrants(At(run, i).grants, server)| <= 500
  {
    hide Inv, At, ActiveGrants;
    Reachable(run, i);
    InvParts(At(run, i));
  }

  ghost predicate Undecided(s: Store, id: Id) {
    id in s.grants && s.grants[id].status == Pending
  }

  ghost predicate Restarts(run: seq<Timed>, k: nat, id: Id)
    requires k < |run|
  {
    OutcomeAt(run, k).Started? && OutcomeAt(run, k).authorization == id
  }

  lemma {:induction false} DecidedStays(run: seq<Timed>, i: nat, j: nat, id: Id)
    requires i <= j <= |run| && !Undecided(At(run, i), id)
    requires forall k :: i <= k < j ==> !Restarts(run, k, id)
    ensures !Undecided(At(run, j), id)
    decreases j
  {
    hide Step;
    if i < j {
      DecidedStays(run, i, j - 1, id);
      assert !Restarts(run, j - 1, id);
      StepPending(At(run, j - 1), run[j - 1].call, run[j - 1].now, id);
    }
  }

  /** A decision succeeds exactly on a pending, unexpired grant, by an active approver if it approves, and leaves it decided. */
  lemma DecideIff(s: Store, id: Id, approver: Option<Id>, now: int)
    ensures var (t, r) := Decide(s, id, approver, now);
            && (r == Done <==>
                  Undecided(s, id) && now < Instant(s.grants[id].expiresAt) && (approver.Some? ==> UserActive(s, approver.value)))
            && (r == Done ==> !Undecided(t, id) && t.grants[id].approvedUser == approver)
            && (r == Done ==> t.grants[id].status == if approver.Some? then Approved else Denied)
  {
    if id in s.grants {
      StoredComparison(s.grants[id].expiresAt, now);
    }
  }

  /** Approve and deny have a single winner: unless its id is drawn again for a new grant, a grant is decided at most once. */
  lemma DecisionIsFinal(run: seq<Timed>, i: nat, j: nat, id: Id)
    requires i < j < |run| && run[i].call.CallDecide? && run[j].call.CallDecide?
    requires run[i].call.grant == id && run[j].call.grant == id
    requires OutcomeAt(run, i) == Done
    requires forall k :: i < k < j ==> !Restarts(run, k, id)
    ensures OutcomeAt(run, j) != Done
  {
    hide Decide, Undecided, Start, Review, Poll, Exchange, Rotate, Authenticate, Revoke;
    DecideIff(At(run, i), id, run[i].call.approver, run[i].now);
    assert At(run, i + 1) == Step(At(run, i), run[i].call, run[i].now).0;
    DecidedStays(run, i + 1, j, id);
    DecideIff(At(run, j), id, run[j].call.approver, run[j].now);
  }

  // Errors.

  ghost predicate LiveAccess(s: Store, k: Slot) {
    k in s.accesses && s.accesses[k].status == SessionActive
  }

  ghost predicate LiveRefresh(s: Store, k: Slot) {
    k in s.refreshes && s.refreshes[k].status == RefreshActive
  }

  /** Only a call that issues credentials can make a row live: any other call, every failed one among them, leaves live at most what was. */
  lemma OnlyIssuesGoLive(s: Store, call: Call, now: int, k: Slot)
    requires Inv(s) && !Step(s, call, now).1.Issued?
    ensures LiveAccess(Step(s, call, now).0, k) ==> LiveAccess(s, k)
    ensures LiveRefresh(Step(s, call, now).0, k) ==> LiveRefresh(s, k)
  {
    hide Inv, Step, AddsGeneration, Describes;
    StepIsSound(s, call, now);
    StepRows(s, call, now);
  }

  /** Every draw of codes for a new grant is taken, once the overdue and retained grants have made way. */
  ghost predicate DrawsCollide(s: Store, p: Policy, draws: seq<GrantDraw>, now: int) {
    var ready := DropRetained(ExpireOverdue(s.grants, p.server, now), s.families, p.server, now);
    forall k :: 0 <= k < |draws| && k < 5 ==> GrantCollides(ready, draws[k])
  }

  lemma {:induction false} NoneIsFree(grants: map<Id, Grant>, draws: seq<GrantDraw>, attempt: nat)
    requires attempt <= |draws| && attempt <= 5
    ensures FirstFree(grants, draws, attempt).None? <==> forall k :: attempt <= k < |draws| && k < 5 ==> GrantCollides(grants, draws[k])
    decreases |draws| - attempt
  {
    hide GrantCollides;
    if attempt < |draws| && attempt < 5 { NoneIsFree(grants, draws, attempt + 1); }
  }

  /** The installation that a device code would sign in is known and revoked. */
  ghost predicate InstallationRevoked(s: Store, p: Policy, q: ExchangeRequest) {
    var id := GrantOfCode(s.grants, q.deviceCode);
    && id.Some? && s.grants[id.value].approvedUser.Some?
    && var d := DeviceOf(s.devices, s.grants[id.value].approvedUser.value, p.server, s.grants[id.value].installation);
       d.Some? && !s.devices[d.value].active
  }

  /**
   The internal-fault branches for inconsistent rows are unreachable: an invalid state is
   reported only when all draws of codes collide, or when the installation that is being
   signed in was revoked.
   */
  lemma InvalidStateOnly(run: seq<Timed>, i: nat)
    requires i < |run| && OutcomeAt(run, i) == Failed(InvalidState)
    ensures var s, call := At(run, i), run[i].call;
      || (call.CallStart? && call.policy.Valid() && DrawsCollide(s, call.policy, call.draws, run[i].now))
      || (call.CallExchange? && InstallationRevoked(s, call.policy, call.exchange))
  {
    hide Inv, At, DrawsCollide, InstallationRevoked;
    Reachable(run, i);
    var s := At(run, i);
    var call, now := run[i].call, run[i].now;
    assert GrantInv(s) by { InvParts(s); }
    match call
    case CallStart(p, q, draws) => StartFault(s, p, q, draws, now);
    case CallDecide(id, approver) => DecideHasNoFault(s, id, approver, now);
    case CallExchange(key, p, q, draw) => ExchangeFault(s, key, p, q, draw, now);
    case CallRotate(key, p, q, draw) => RotateHasNoFault(s, key, p, q, draw, now);
    case _ => OthersHaveNoFault(s, call, now);
  }

  lemma StartFault(s: Store, p: Policy, q: StartRequest, draws: seq<GrantDraw>, now: int)
    requires Start(s, p, q, draws, now).1 == Failed(InvalidState)
    ensures p.Valid() && DrawsCollide(s, p, draws, now)
  {
    hide ActiveGrants, NewGrant, GrantCollides, DropRetained, ExpireOverdue;
    NoneIsFree(DropRetained(ExpireOverdue(s.grants, p.server, now), s.families, p.server, now), draws, 0);
  }

  /** A start with a valid policy and room for one more grant fails this way exactly when all draws collide. */
  lemma StartFaultIff(s: Store, p: Policy, q: StartRequest, draws: seq<GrantDraw>, now: int)
    requires p.Valid()
    requires |ActiveGrants(DropRetained(ExpireOverdue(s.grants, p.server, now), s.families, p.server, now), p.server)| < MAX_ACTIVE_GRANTS
    ensures Start(s, p, q, draws, now).1 == Failed(InvalidState) <==> DrawsCollide(s, p, draws, now)
  {
    hide ActiveGrants, NewGrant, GrantCollides, DropRetained, ExpireOverdue;
    NoneIsFree(DropRetained(ExpireOverdue(s.grants, p.server, now), s.families, p.server, now), draws, 0);
  }

  lemma DecideHasNoFault(s: Store, id: Id, approver: Option<Id>, now: int)
    ensures Decide(s, id, approver, now).1 != Failed(InvalidState)
  {
    if id in s.grants {
      StoredComparison(s.grants[id].expiresAt, now);
    }
  }

  lemma ExchangeFault(s: Store, key: Id, p: Policy, q: ExchangeRequest, draw: Draw, now: int)
    requires GrantInv(s) && Exchange(s, key, p, q, draw, now).1 == Failed(InvalidState)
    ensures InstallationRevoked(s, p, q)
  {
    hide FirstCollides, FirstCredentials;
    var id := GrantOfCode(s.grants, q.deviceCode).value;
    assert GrantShape(s, id);
    PassGateKeepsTables(s, id, now);
    hide PassGate;
  }

  lemma RotateHasNoFault(s: Store, key: Id, p: Policy, q: RotateRequest, draw: Draw, now: int)
    ensures Rotate(s, key, p, q, draw, now).1 != Failed(InvalidState)
  {
    hide Minted, NextCredentials, CondemnRotation, SlotCollides, TransactionUsed;
  }

  lemma OthersHaveNoFault(s: Store, call: Call, now: int)
    requires !call.CallStart? && !call.CallDecide? && !call.CallExchange? && !call.CallRotate?
    ensures Transact(s, call, now).1 != Failed(InvalidState)
  {
    hide PassGate, ExpireGrant;
  }
}
