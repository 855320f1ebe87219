/**
 The poll gate of a pending device authorization (RFC 8628 section 3.5).

 One authorization row stores the whole second before which a poll counts as too early.
 `Check` is the read, compare and compare-and-swap of one poll; the lemmas below describe
 what the stored gate is after any sequence of polls.
 */
module PollGate {
  import opened Clock

  datatype Verdict =
    | Admitted
    | TooEarly(retryAfter: int)
    | SwapLost(retryAfter: int)

  /** One poll at `now`: the verdict, and the gate stored afterwards. */
  function Check(gate: int, interval: int, now: int): (r: (Verdict, int)) {
    if Instant(gate) > now then
      (TooEarly(AtLeastOne((Instant(gate) - now) / NANOS) + interval), gate + interval)
    else if gate <= Seconds(now) then
      (Admitted, Seconds(now + Span(interval)))
    else
      (SwapLost(interval), gate)
  }

  function AtLeastOne(n: int): int {
    if n < 1 then 1 else n
  }

  /** The guarded update that follows a passed check always finds its row. */
  lemma SwapNeverLost(gate: int, interval: int, now: int)
    ensures !Check(gate, interval, now).0.SwapLost?
  {
    StoredComparison(gate, now);
  }

  /** The pause a too-early client is told lands less than one second from the gate that was stored for it. */
  lemma RetryAfterMeetsGate(gate: int, interval: int, now: int)
    requires Check(gate, interval, now).0.TooEarly?
    ensures var (verdict, stored) := Check(gate, interval, now);
            -NANOS < now + Span(verdict.retryAfter) - Instant(stored) < NANOS
    ensures Check(gate, interval, now).0.retryAfter >= interval + 1
  {
  }

  /** The gate after the polls of `times`, oldest first. */
  function GateAfter(gate: int, interval: int, times: seq<int>): int {
    if times == [] then gate
    else Check(GateAfter(gate, interval, times[..|times| - 1]), interval, times[|times| - 1]).1
  }

  ghost predicate AdmittedAt(gate: int, interval: int, times: seq<int>, i: int) {
    0 <= i < |times| && Check(GateAfter(gate, interval, times[..i]), interval, times[i]).0.Admitted?
  }

  /** Exactly which polls are admitted: those whose whole second has reached the gate. */
  lemma AdmittedIff(gate: int, interval: int, times: seq<int>, i: int)
    requires 0 <= i < |times|
    ensures AdmittedAt(gate, interval, times, i) <==> GateAfter(gate, interval, times[..i]) <= Seconds(times[i])
  {
    StoredComparison(GateAfter(gate, interval, times[..i]), times[i]);
  }

  /**
   After an admitted poll at index `i`, followed only by early ones, the gate is the whole
   second of that poll plus one interval for it and one more for each early poll since.
   */
  lemma {:induction false} GateFormula(gate: int, interval: int, times: seq<int>, i: int)
    requires AdmittedAt(gate, interval, times, i)
    requires forall j :: i < j < |times| ==> !AdmittedAt(gate, interval, times, j)
    ensures GateAfter(gate, interval, times) == Seconds(times[i]) + (1 + (|times| - 1 - i)) * interval
    decreases |times|
  {
    var last := |times| - 1;
    var shorter := times[..last];
    assert forall j :: 0 <= j <= last ==> shorter[..j] == times[..j];
    if i == last {
      CutCommutesWithSpan(times[i], interval);
    } else {
      assert forall j :: 0 <= j < last ==> (AdmittedAt(gate, interval, shorter, j) <==> AdmittedAt(gate, interval, times, j));
      GateFormula(gate, interval, shorter, i);
      assert !AdmittedAt(gate, interval, times, last);
      SwapNeverLost(GateAfter(gate, interval, shorter), interval, times[last]);
      assert (1 + (last - i)) * interval == (1 + (last - 1 - i)) * interval + interval;
    }
  }

  /** The gate never falls below what an admitted poll set, whatever polls follow. */
  lemma {:induction false} GateHolds(gate: int, interval: int, times: seq<int>, i: int, j: int)
    requires interval >= 0
    requires AdmittedAt(gate, interval, times, i)
    requires i < j <= |times|
    ensures GateAfter(gate, interval, times[..j]) >= Seconds(times[i]) + interval
    decreases j
  {
    assert times[..j][..j - 1] == times[..j - 1];
    if j == i + 1 {
      CutCommutesWithSpan(times[i], interval);
    } else {
      GateHolds(gate, interval, times, i, j - 1);
      StoredComparison(GateAfter(gate, interval, times[..j - 1]), times[j - 1]);
      CutCommutesWithSpan(times[j - 1], interval);
    }
  }

  /** Any two admitted polls are at least one interval of whole seconds apart. */
  lemma AdmittedPollsAreSpaced(gate: int, interval: int, times: seq<int>, i: int, j: int)
    requires interval >= 0
    requires AdmittedAt(gate, interval, times, i) && AdmittedAt(gate, interval, times, j) && i < j
    ensures Seconds(times[j]) >= Seconds(times[i]) + interval
  {
    GateHolds(gate, interval, times, i, j);
    AdmittedIff(gate, interval, times, j);
  }
}
