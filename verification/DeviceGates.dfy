/** The poll gate of a grant over whole runs: PollGate's laws hold of what the tables store. */
module DeviceGates {
  import opened Wrappers
  import opened Clock
  import opened DeviceTables
  import opened DeviceTransactions
  import opened DeviceInvariant
  import opened DeviceSteps
  import opened DeviceRuns
  import opened DeviceConsent
  import PollGate

  /** A grant that is still open to polls. */
  predicate Polling(g: Grant, now: int) {
    g.Active() && now < Instant(g.expiresAt)
  }

  /** The call finds grant `id` open, and gets as far as its gate. */
  ghost predicate Knocks(s: Store, call: Call, now: int, id: Id) {
    id in s.grants && Polling(s.grants[id], now) &&
    match call
    case CallPoll(code, server) => GrantOfCode(s.grants, code) == Some(id) && s.grants[id].server == server
    case CallExchange(_, p, q, _) =>
      && p.Valid() && GrantOfCode(s.grants, q.deviceCode) == Some(id)
      && s.grants[id].server == p.server && s.grants[id].challenge == S256(q.verifier)
    case _ => false
  }

  /** It gets there in a transaction that is committed: one that is rolled back leaves the gate as it was. */
  ghost predicate Reaches(s: Store, call: Call, now: int, id: Id) {
    Knocks(s, call, now, id) && ShouldCommit(Step(s, call, now).1)
  }

  ghost predicate Gated(g: Grant, h: Grant, reached: bool, now: int) {
    h.nextPollAt == if reached then PollGate.Check(g.nextPollAt, g.interval, now).1 else g.nextPollAt
  }

  /** Every other call leaves every gate alone. */
  ghost predicate GateStays(s: Store, t: Store, id: Id) {
    id in s.grants && id in t.grants ==> t.grants[id].nextPollAt == s.grants[id].nextPollAt
  }

  lemma StartLeavesGates(s: Store, p: Policy, q: StartRequest, draws: seq<GrantDraw>, now: int, id: Id)
    ensures var (t, r) := Start(s, p, q, draws, now); (r.Started? && r.authorization == id) || GateStays(s, t, id)
  {
    hide ActiveGrants, FirstFree, NewGrant, DropRetained, ExpireOverdue;
    ReadyGates(s.grants, s.families, p.server, now, id);
  }

  lemma ReadyGates(grants: map<Id, Grant>, families: map<Id, Family>, server: Id, now: int, id: Id)
    ensures var ready := DropRetained(ExpireOverdue(grants, server, now), families, server, now);
      id in ready ==> id in grants && ready[id].nextPollAt == grants[id].nextPollAt
  {
    hide HasFamily, Seconds;
  }

  lemma ExpiryLeavesGates(s: Store, code: Id, server: Id, now: int, id: Id)
    ensures GateStays(s, ExpireByCode(s, code, server, now), id)
  {
    hide Seconds;
  }

  lemma DecisionLeavesGates(s: Store, grant: Id, approver: Option<Id>, now: int, id: Id)
    ensures GateStays(s, Decide(s, grant, approver, now).0, id)
  {
    hide Seconds, Instant, UserActive;
  }

  lemma SweepsLeaveGates(s: Store, chosen: set<Id>, now: int, id: Id)
    ensures GateStays(s, SweepResults(s, now), id) && GateStays(s, SweepGrants(s, chosen, now), id)
  {
    hide HasFamily, Seconds;
  }

  lemma OthersLeaveGates(s: Store, call: Call, now: int, id: Id)
    requires !call.CallStart? && !call.CallPoll? && !call.CallExchange?
    ensures GateStays(s, Transact(s, call, now).0, id)
  {
    hide ExpireByCode, Decide, SweepResults, SweepGrants, Rotate, Authenticate, Revoke, GateStays;
    match call
    case CallExpireCode(code, server) => ExpiryLeavesGates(s, code, server, now, id);
    case CallDecide(grant, approver) => DecisionLeavesGates(s, grant, approver, now, id);
    case CallSweepResults => SweepsLeaveGates(s, {}, now, id);
    case CallSweepGrants(chosen) => SweepsLeaveGates(s, chosen, now, id);
    case CallRotate(key, p, q, draw) => RotateLeavesGrants(s, key, p, q, draw, now, 0); SameGate(s, Rotate(s, key, p, q, draw, now).0, id);
    case CallAuthenticate(token, server) => AuthenticateLeavesGrants(s, token, server, now); SameGate(s, Authenticate(s, token, server, now).0, id);
    case CallRevoke(user, family) => RevokeLeavesGrants(s, user, family); SameGate(s, Revoke(s, user, family).0, id);
    case _ => SameGate(s, Transact(s, call, now).0, id);
  }

  lemma RevokeLeavesGrants(s: Store, user: Id, family: Id)
    ensures Revoke(s, user, family).0.grants == s.grants
  {
  }

  lemma SameGate(s: Store, t: Store, id: Id)
    ensures t.grants == s.grants ==> GateStays(s, t, id)
  {
  }

  lemma PassedGate(s: Store, grant: Id, now: int, id: Id)
    requires grant in s.grants
    ensures var t := PassGate(s, grant, now).0;
      t.grants.Keys == s.grants.Keys && (id in s.grants ==> Gated(s.grants[id], t.grants[id], id == grant, now))
    ensures var t := ExpireGrant(s, grant, now); t.grants.Keys == s.grants.Keys && GateStays(s, t, id)
  {
    hide Seconds;
  }

  lemma PollGated(s: Store, code: Id, server: Id, now: int, id: Id)
    requires id in s.grants
    ensures var t := Poll(s, code, server, now).0;
      id in t.grants && Gated(s.grants[id], t.grants[id], Knocks(s, CallPoll(code, server), now, id), now)
  {
    hide PassGate, ExpireGrant, Instant;
    var found := GrantOfCode(s.grants, code);
    if found.Some? { PassedGate(s, found.value, now, id); }
  }

  lemma IssueLeavesGate(s: Store, grant: Id, key: Id, p: Policy, q: ExchangeRequest, draw: Draw, now: int, id: Id)
    requires grant in s.grants && id in s.grants
    ensures var t := IssueFirst(s, grant, key, p, q, draw, now).0; id in t.grants && t.grants[id].nextPollAt == s.grants[id].nextPollAt
  {
    hide FirstCollides, FirstCredentials, DeviceOf, Seconds, Span;
  }

  lemma ExchangeGated(s: Store, key: Id, p: Policy, q: ExchangeRequest, draw: Draw, now: int, id: Id)
    requires id in s.grants
    ensures var t := Exchange(s, key, p, q, draw, now).0;
      id in t.grants && Gated(s.grants[id], t.grants[id], Knocks(s, CallExchange(key, p, q, draw), now, id), now)
  {
    hide PassGate, ExpireGrant, Instant, IssueFirst, RecoverExchange, Gated, GateStays;
    UngatedStays(s.grants[id], now);
    var found := GrantOfCode(s.grants, q.deviceCode);
    if found.Some? {
      PassedGate(s, found.value, now, id);
      ExpiredUngated(s, ExpireGrant(s, found.value, now), id, now);
      var t := PassGate(s, found.value, now).0;
      IssueLeavesGate(t, found.value, key, p, q, draw, now, id);
      GatedThrough(s.grants[id], t.grants[id], IssueFirst(t, found.value, key, p, q, draw, now).0.grants[id], id == found.value, now);
    }
  }

  lemma UngatedStays(g: Grant, now: int)
    ensures Gated(g, g, false, now)
  {
  }

  lemma ExpiredUngated(s: Store, t: Store, id: Id, now: int)
    requires GateStays(s, t, id) && id in s.grants && id in t.grants
    ensures Gated(s.grants[id], t.grants[id], false, now)
  {
  }

  lemma GatedThrough(g: Grant, h: Grant, k: Grant, reached: bool, now: int)
    requires Gated(g, h, reached, now) && k.nextPollAt == h.nextPollAt
    ensures Gated(g, k, reached, now)
  {
  }

  /** One transaction moves the gate of a grant exactly when it reaches it, and then as PollGate says. */
  lemma StepGated(s: Store, call: Call, now: int, id: Id)
    requires id in s.grants && id in Step(s, call, now).0.grants
    requires !(Step(s, call, now).1.Started? && Step(s, call, now).1.authorization == id)
    ensures Gated(s.grants[id], Step(s, call, now).0.grants[id], Reaches(s, call, now, id), now)
  {
    hide Start, Poll, Exchange, Polling, GateStays;
    UngatedStays(s.grants[id], now);
    if !ShouldCommit(Step(s, call, now).1) {
    } else if call.CallStart? {
      StartLeavesGates(s, call.policy, call.start, call.draws, now, id);
      ExpiredUngated(s, Step(s, call, now).0, id, now);
    } else if call.CallPoll? {
      PollGated(s, call.deviceCode, call.server, now, id);
    } else if call.CallExchange? {
      ExchangeGated(s, call.key, call.policy, call.exchange, call.draw, now, id);
    } else {
      OthersLeaveGates(s, call, now, id);
      ExpiredUngated(s, Step(s, call, now).0, id, now);
    }
  }

  /** The times of the polls and exchanges that reached the gate of a grant in steps `i` to `j` of a run. */
  ghost function Knocked(run: seq<Timed>, i: nat, j: nat, id: Id): seq<int>
    requires i <= j <= |run|
    decreases j
  {
    if i == j then []
    else Knocked(run, i, j - 1, id) + if Reaches(At(run, j - 1), run[j - 1].call, run[j - 1].now, id) then [run[j - 1].now] else []
  }

  ghost predicate Undisturbed(run: seq<Timed>, i: nat, j: nat, id: Id)
    requires i <= j <= |run|
  {
    id in At(run, j).grants && forall k :: i <= k < j ==> !Restarts(run, k, id)
  }

  /** In any run, what is stored as the gate of a grant is what PollGate computes from the polls and exchanges that reached it. */
  lemma {:induction false} StoredGateIsGateAfter(run: seq<Timed>, i: nat, j: nat, id: Id)
    requires i <= j <= |run| && Undisturbed(run, i, j, id)
    ensures id in At(run, i).grants && At(run, j).grants[id].interval == At(run, i).grants[id].interval
    ensures At(run, j).grants[id].nextPollAt
      == PollGate.GateAfter(At(run, i).grants[id].nextPollAt, At(run, i).grants[id].interval, Knocked(run, i, j, id))
    decreases j
  {
    hide Step, Reaches, Inv, PollGate.Check;
    if i < j {
      RequestPersists(run, i, j, id);
      RequestPersists(run, j - 1, j, id);
      StoredGateIsGateAfter(run, i, j - 1, id);
      assert !Restarts(run, j - 1, id);
      StepGated(At(run, j - 1), run[j - 1].call, run[j - 1].now, id);
      var times := Knocked(run, i, j - 1, id);
      if Reaches(At(run, j - 1), run[j - 1].call, run[j - 1].now, id) {
        assert (times + [run[j - 1].now])[..|times|] == times;
      } else {
        assert times + [] == times;
      }
    }
  }

  /** A call that reaches the gate and is let through: its whole second has reached the stored gate. */
  ghost predicate LetThrough(run: seq<Timed>, k: nat, id: Id) {
    && k < |run| && Reaches(At(run, k), run[k].call, run[k].now, id)
    && At(run, k).grants[id].nextPollAt <= Seconds(run[k].now)
  }

  lemma {:induction false} KnocksSplit(run: seq<Timed>, i: nat, j: nat, k: nat, id: Id)
    requires i <= j <= k <= |run|
    ensures Knocked(run, i, k, id) == Knocked(run, i, j, id) + Knocked(run, j, k, id)
    decreases k
  {
    hide Reaches, At;
    if j < k { KnocksSplit(run, i, j, k - 1, id); }
  }

  /** The interval of a stored grant is the one of the valid policy it was started under. */
  lemma IntervalIsInRange(run: seq<Timed>, i: nat, id: Id)
    requires i <= |run| && id in At(run, i).grants
    ensures 2 <= At(run, i).grants[id].interval <= 15
  {
    hide At, HasConsent;
    GrantsAreAccounted(run, i, id);
    hide OutcomeAt;
    var k :| 0 <= k < i && RequestedAt(run, k, id, At(run, i).grants[id]);
  }

  /** Any two calls let through the gate of one grant are at least its interval of whole seconds apart. */
  lemma LetThroughAreSpaced(run: seq<Timed>, i: nat, j: nat, id: Id)
    requires i < j && LetThrough(run, i, id) && LetThrough(run, j, id) && Undisturbed(run, i, j, id)
    ensures Seconds(run[j].now) >= Seconds(run[i].now) + At(run, i).grants[id].interval >= Seconds(run[i].now) + 2
  {
    hide Reaches, At, Seconds, PollGate.Check;
    StoredGateIsGateAfter(run, i, j, id);
    IntervalIsInRange(run, i, id);
    var gate, interval, times := At(run, i).grants[id].nextPollAt, At(run, i).grants[id].interval, Knocked(run, i, j, id);
    KnocksSplit(run, i, i + 1, j, id);
    assert Knocked(run, i, i + 1, id) == [run[i].now];
    FirstIsAdmitted(gate, interval, times);
    PollGate.GateHolds(gate, interval, times, 0, |times|);
    assert times[..|times|] == times;
  }

  lemma FirstIsAdmitted(gate: int, interval: int, times: seq<int>)
    requires times != [] && gate <= Seconds(times[0])
    ensures PollGate.AdmittedAt(gate, interval, times, 0)
  {
    hide Seconds;
    PollGate.AdmittedIff(gate, interval, times, 0);
    assert times[..0] == [];
  }

  /** What a poll of an open grant answers: the state of the grant if it is let through, and else the pause that meets the new gate. */
  lemma PollAnswers(run: seq<Timed>, k: nat, id: Id)
    requires k < |run| && run[k].call.CallPoll? && Reaches(At(run, k), run[k].call, run[k].now, id)
    ensures OutcomeAt(run, k) == (if LetThrough(run, k, id) then Polled(At(run, k).grants[id].status)
      else Failed(SlowDown(PollGate.Check(At(run, k).grants[id].nextPollAt, At(run, k).grants[id].interval, run[k].now).0.retryAfter)))
  {
    hide At, Seconds;
    StoredComparison(At(run, k).grants[id].nextPollAt, run[k].now);
  }
}
