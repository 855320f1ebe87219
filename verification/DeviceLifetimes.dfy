/**
 How long issued credentials live: the rows that a rotation and a first exchange leave, what
 the device is told of their lifetimes, and the end of an idle token.
 */
module DeviceLifetimes {
  import opened Wrappers
  import opened Clock
  import opened DeviceTables
  import opened DeviceTransactions
  import opened DeviceInvariant
  import opened DeviceSteps
  import opened DeviceRows
  import opened DeviceRuns
  import opened DeviceConsent
  import opened DeviceAvailability

  // The lifetime of what is issued.

  /** The rows of the credentials `c` as they are inserted at `now`: both live, each with its own lifetime, the refresh row within the family's. */
  ghost predicate FreshRows(t: Store, c: Credentials, p: Policy, now: int, absolute: int) {
    var k := Slot(c.family, c.generation);
    && c.family in t.families && k in t.accesses && k in t.refreshes && k !in t.rotations
    && t.families[c.family].active && t.families[c.family].absoluteExpiresAt == absolute
    && t.accesses[k].status == SessionActive && t.accesses[k].token == c.accessToken
    && t.accesses[k].expiresAt == Seconds(now) + p.accessTtl
    && t.refreshes[k].status == RefreshActive && t.refreshes[k].token == c.refreshToken
    && t.refreshes[k].expiresAt == (if Seconds(now) + p.slidingTtl <= absolute then Seconds(now) + p.slidingTtl else absolute)
    && t.families[c.family].slidingExpiresAt == t.refreshes[k].expiresAt
  }

  /** What the device is told of these lifetimes. */
  ghost predicate FreshAnswer(c: Credentials, p: Policy, now: int, absolute: int) {
    && c.issuedAt == now && c.accessExpiresAt == now + Span(p.accessTtl) && c.server == p.server
    && c.refreshExpiresAt <= now + Span(p.slidingTtl) && c.refreshExpiresAt <= absolute
    && (c.refreshExpiresAt == now + Span(p.slidingTtl) || c.refreshExpiresAt == absolute)
    && c.absoluteExpiresAt == absolute
  }

  /** The slot before that of the credentials `c`. */
  function Source(c: Credentials): Slot {
    Slot(c.family, c.generation - 1)
  }

  /** Step `i` rotates a refresh token that had not been used before. */
  ghost predicate RotatesAt(run: seq<Timed>, i: nat) {
    i < |run| && run[i].call.CallRotate? && OutcomeAt(run, i).Issued? && Source(OutcomeAt(run, i).credentials) !in At(run, i).rotations
  }

  /** Step `i` exchanges a device code for the first credentials of a new family. */
  ghost predicate EntersAt(run: seq<Timed>, i: nat) {
    i < |run| && run[i].call.CallExchange? && OutcomeAt(run, i).Issued? && OutcomeAt(run, i).credentials.family !in At(run, i).families
  }

  ghost predicate RotationOf(s: Store, t: Store, q: RotateRequest, p: Policy, c: Credentials, now: int) {
    var k := Source(c);
    && k in s.refreshes && s.refreshes[k].token == q.token && s.refreshes[k].status == RefreshActive && now < Instant(s.refreshes[k].expiresAt)
    && k in t.refreshes && t.refreshes[k] == s.refreshes[k].(status := RefreshRotated)
    && k in t.accesses && t.accesses[k].status != SessionActive
    && c.family in s.families
    && FreshRows(t, c, p, now, s.families[c.family].absoluteExpiresAt)
    && FreshAnswer(c, p, now, Instant(s.families[c.family].absoluteExpiresAt))
  }

  lemma MintIsFresh(s: Store, k: Slot, key: Id, p: Policy, q: RotateRequest, draw: Draw, now: int)
    requires k in s.refreshes && k in s.accesses && Joined(s, k) && s.refreshes[k].token == q.token && q.server == p.server && s.families[k.family].active
    requires Next(k) !in s.rotations
    ensures var (t, r) := MintNext(s, k, key, p, q, draw, now); r.Issued? ==> Source(r.credentials) == k && RotationOf(s, t, q, p, r.credentials, now)
  {
    hide TransactionUsed, SlotCollides;
    CutCommutesWithSpan(now, p.accessTtl);
    CutCommutesWithSpan(now, p.slidingTtl);
  }

  lemma RotateIsFresh(s: Store, key: Id, p: Policy, q: RotateRequest, draw: Draw, now: int)
    requires Inv(s)
    ensures var (t, r) := Rotate(s, key, p, q, draw, now);
      r.Issued? && Source(r.credentials) !in s.rotations ==> RotationOf(s, t, q, p, r.credentials, now)
  {
    hide Inv, MintNext, CondemnRotation, Describes, RotationOf;
    var k := SlotOfRefresh(s.refreshes, q.token);
    if k.Some? {
      assert ResultInv(s) by { InvParts(s); }
      if k.value in s.rotations {
        assert RotationResult(s, k.value, s.rotations[k.value].result);
      } else if q.server == p.server && RotateRefusal(s, k.value, q).None? {
        NextIsOpen(s, k.value);
        MintIsFresh(s, k.value, key, p, q, draw, now);
      }
    }
  }

  /** Above a slot without a rotation record there is nothing. */
  lemma NextIsOpen(s: Store, k: Slot)
    requires Inv(s) && k in s.refreshes && k !in s.rotations
    ensures k in s.accesses && Next(k) !in s.rotations
  {
    assert ChainInv(s) by { InvParts(s); }
    hide Inv, HasChain;
    var n := ChainOf(s, k.family);
    assert Slot(k.family, k.generation) in s.refreshes;
  }

  /**
   A refresh token that rotates is live and unexpired, and is spent with that. The next one
   lives for the sliding lifetime of the policy, cut off at the absolute expiry of the family,
   and the answer says the same.
   */
  lemma RotationLives(run: seq<Timed>, i: nat)
    requires RotatesAt(run, i)
    ensures RotationOf(At(run, i), At(run, i + 1), run[i].call.rotate, run[i].call.policy, OutcomeAt(run, i).credentials, run[i].now)
  {
    hide Inv, Rotate, RotationOf;
    Reachable(run, i);
    var call := run[i].call;
    RotateIsFresh(At(run, i), call.key, call.policy, call.rotate, call.draw, run[i].now);
    assert At(run, i + 1) == Step(At(run, i), call, run[i].now).0;
  }

  /** The family that a first exchange founds: for the approver of the grant, on the installation that asked for it. */
  ghost predicate EntryOf(s: Store, t: Store, q: ExchangeRequest, p: Policy, c: Credentials, now: int) {
    && c.family !in s.families && c.family in t.families && c.generation == 0
    && var f := t.families[c.family];
       var id := f.authorization;
    && id in s.grants && s.grants[id].deviceCode == q.deviceCode && s.grants[id].status == Approved
    && id in t.grants && t.grants[id].status == Consumed && t.grants[id].transaction == Some(q.transaction)
    && s.grants[id].approvedUser == Some(f.user) && f.user == c.user && f.server == c.server == p.server
    && f.device == c.device && f.device in t.devices && t.devices[f.device].active
    && t.devices[f.device].user == f.user && t.devices[f.device].server == f.server && t.devices[f.device].installation == s.grants[id].installation
    && (forall d :: d in s.devices ==> d in t.devices && t.devices[d] == s.devices[d])
    && (forall d :: d in t.devices && d != f.device ==> d in s.devices)
    && FreshRows(t, c, p, now, Seconds(now) + p.absoluteTtl)
    && FreshAnswer(c, p, now, now + Span(p.absoluteTtl))
  }

  lemma IssueIsFresh(s: Store, id: Id, key: Id, p: Policy, q: ExchangeRequest, draw: Draw, now: int)
    requires id in s.grants && s.grants[id].deviceCode == q.deviceCode && s.grants[id].status == Approved && p.Valid()
    requires ChainInv(s)
    ensures var (t, r) := IssueFirst(s, id, key, p, q, draw, now);
      r.Issued? ==> EntryOf(s, t, q, p, r.credentials, now)
  {
    hide HasFamily, SlotCollides, HasChain;
    CutCommutesWithSpan(now, p.accessTtl);
    CutCommutesWithSpan(now, p.slidingTtl);
    CutCommutesWithSpan(now, p.absoluteTtl);
    hide Seconds;
  }

  lemma ExchangeIsFresh(s: Store, key: Id, p: Policy, q: ExchangeRequest, draw: Draw, now: int)
    requires Inv(s)
    ensures var (t, r) := Exchange(s, key, p, q, draw, now);
      r.Issued? && r.credentials.family !in s.families ==> EntryOf(s, t, q, p, r.credentials, now)
  {
    hide Inv, IssueFirst, ExpireGrant, PassGate, Instant, EntryOf, GrantInv;
    assert GrantInv(s) && ChainInv(s) by { InvParts(s); }
    var id := GrantOfCode(s.grants, q.deviceCode);
    if id.Some? {
      if s.grants[id.value].status == Consumed {
        RecoveredIsRecorded(s, id.value, key, p, q, now);
      } else {
        PassGateKeepsTables(s, id.value, now);
        PassGateKeys(s, id.value, now);
        var passed := PassGate(s, id.value, now).0;
        if s.grants[id.value].status == Approved && p.Valid() {
          SameChains(s, passed);
          IssueIsFresh(passed, id.value, key, p, q, draw, now);
          var (t, r) := IssueFirst(passed, id.value, key, p, q, draw, now);
          if r.Issued? { GateKeepsEntry(s, passed, id.value, t, q, p, r.credentials, now); }
        }
      }
    }
  }

  lemma SameChains(s: Store, t: Store)
    requires ChainInv(s) && t == s.(grants := t.grants)
    ensures ChainInv(t)
  {
    forall f | f in t.families ensures HasChain(t, f) {
      var n := ChainOf(s, f);
      assert Chain(t, f, n);
    }
  }

  lemma GateKeepsEntry(s: Store, passed: Store, id: Id, t: Store, q: ExchangeRequest, p: Policy, c: Credentials, now: int)
    requires EntryOf(passed, t, q, p, c, now) && id in s.grants && passed == s.(grants := passed.grants) && passed.grants.Keys == s.grants.Keys
    requires passed.grants[id] == s.grants[id].(nextPollAt := passed.grants[id].nextPollAt, updatedAt := passed.grants[id].updatedAt)
    requires forall other :: other in s.grants && other != id ==> passed.grants[other] == s.grants[other]
    ensures EntryOf(s, t, q, p, c, now)
  {
    hide FreshRows, FreshAnswer;
  }

  /** The same of a first exchange: the absolute lifetime starts there. */
  lemma EntryLives(run: seq<Timed>, i: nat)
    requires EntersAt(run, i)
    ensures EntryOf(At(run, i), At(run, i + 1), run[i].call.exchange, run[i].call.policy, OutcomeAt(run, i).credentials, run[i].now)
  {
    hide Inv, Exchange, EntryOf;
    Reachable(run, i);
    var call := run[i].call;
    ExchangeIsFresh(At(run, i), call.key, call.policy, call.exchange, call.draw, run[i].now);
    assert At(run, i + 1) == Step(At(run, i), call, run[i].now).0;
  }

  /** Step `i` issues the rows of its credentials for the first time, under the policy of its call. */
  ghost predicate MintsAt(run: seq<Timed>, i: nat) {
    RotatesAt(run, i) || EntersAt(run, i)
  }

  ghost function AbsoluteOf(run: seq<Timed>, i: nat): int
    requires MintsAt(run, i)
  {
    if RotatesAt(run, i) && OutcomeAt(run, i).credentials.family in At(run, i).families
    then At(run, i).families[OutcomeAt(run, i).credentials.family].absoluteExpiresAt
    else Seconds(run[i].now) + PolicyOf(run[i].call).value.absoluteTtl
  }

  lemma MintLives(run: seq<Timed>, i: nat)
    requires MintsAt(run, i)
    ensures FreshRows(At(run, i + 1), OutcomeAt(run, i).credentials, PolicyOf(run[i].call).value, run[i].now, AbsoluteOf(run, i))
  {
    hide At, FreshRows, FreshAnswer;
    if RotatesAt(run, i) { RotationLives(run, i); } else { EntryLives(run, i); }
  }

  /** An idle token never rotates: presented for the first time when the sliding lifetime is over, it is refused. */
  lemma IdleTokensNeverRotate(run: seq<Timed>, i: nat, j: nat)
    requires MintsAt(run, i) && i < j < |run| && run[j].call.CallRotate?
    requires var c := OutcomeAt(run, i).credentials;
      run[j].call.rotate.token == c.refreshToken && Slot(c.family, c.generation) !in At(run, j).rotations
    requires run[j].now >= run[i].now + Span(PolicyOf(run[i].call).value.slidingTtl)
    ensures !OutcomeAt(run, j).Issued?
  {
    hide Inv, At, Rotate, OutcomeAt, FreshRows;
    TokenKeepsExpiry(run, i, j);
    Reachable(run, j);
    var c, call := OutcomeAt(run, i).credentials, run[j].call;
    FirstRotationIff(At(run, j), Slot(c.family, c.generation), call.key, call.policy, call.rotate, call.draw, run[j].now);
    StepOfRotate(run, j);
  }

  lemma StepOfRotate(run: seq<Timed>, j: nat)
    requires j < |run| && run[j].call.CallRotate?
    ensures var call := run[j].call; OutcomeAt(run, j) == Rotate(At(run, j), call.key, call.policy, call.rotate, call.draw, run[j].now).1
  {
    hide Rotate;
  }

  lemma TokenKeepsExpiry(run: seq<Timed>, i: nat, j: nat)
    requires MintsAt(run, i) && i < j <= |run|
    ensures var c, p := OutcomeAt(run, i).credentials, PolicyOf(run[i].call).value;
      var k := Slot(c.family, c.generation);
      && k in At(run, j).refreshes && At(run, j).refreshes[k].token == c.refreshToken
      && At(run, j).refreshes[k].expiresAt == (if Seconds(run[i].now) + p.slidingTtl <= AbsoluteOf(run, i) then Seconds(run[i].now) + p.slidingTtl else AbsoluteOf(run, i))
  {
    hide Inv, Step, At, Extends, AbsoluteOf;
    MintLives(run, i);
    History(run, i + 1, j);
    hide RotatesAt, EntersAt;
    KeepsToken(At(run, i + 1), At(run, j), Slot(OutcomeAt(run, i).credentials.family, OutcomeAt(run, i).credentials.generation));
  }

  lemma KeepsToken(s: Store, t: Store, k: Slot)
    requires Extends(s, t) && k in s.refreshes
    ensures k in t.refreshes && t.refreshes[k].token == s.refreshes[k].token && t.refreshes[k].expiresAt == s.refreshes[k].expiresAt
  {
  }
}
