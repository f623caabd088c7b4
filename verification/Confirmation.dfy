/** Confirmation of a public mapping. A probe goroutine calls
    confirmPublicProbeWithProgress again and again, carrying partial progress in
    a record that both share, until one call confirms a mapping.

    A trace lists the outcomes of the probes one goroutine makes, in order. Each
    step also says whether the context checks between that probe and the next
    find the context cancelled. A run that uses up its trace is still probing. */
module Confirmation {
  import opened Net
  import opened Wrappers

  /** How one probe ends. A round failure is an error wrapping
      errPublicProbeRoundFailed; `stops` says whether another error wraps
      context.Canceled or errStopped. */
  datatype ProbeOutcome = Mapped(result: StunResult) | RoundFailed | OtherError(stops: bool)

  datatype ProbeStep = ProbeStep(outcome: ProbeOutcome, cancelled: bool)

  /** How a call of confirmPublicProbeWithProgress ends; NoProbeYet when it is
      still waiting for a probe the trace does not hold. */
  datatype Verdict = Confirmed(result: StunResult) | Failed(stops: bool) | Cancelled | NoProbeYet

  /** How a probe goroutine ends, after `at` probes. */
  datatype ProbeEnd = Published(at: nat, result: StunResult) | Stopped(at: nat) | StillProbing

  class ProbeProgress {
    var candidate: StunResult
    var count: nat

    constructor ()
      ensures count == 0
    {
      candidate, count := ZERO_RESULT, 0;
    }
  }

  // ----- The specification: a statement about the whole trace

  /** A confirmation count of at most one means that one sample is enough. */
  function Need(confirmations: int): (n: nat)
    ensures n >= 1
    ensures if confirmations < 1 then n == 1 else n == confirmations
  {
    if confirmations <= 1 then 1 else confirmations
  }

  /** The outcomes that count: failed rounds leave no trace. */
  ghost function Erase(trace: seq<ProbeStep>): seq<ProbeOutcome> {
    if trace == [] then []
    else
      var earlier := Erase(trace[..|trace| - 1]);
      var last := trace[|trace| - 1].outcome;
      if last.RoundFailed? then earlier else earlier + [last]
  }

  /** The outcome is a sample of this port and address, however the address is spelt. */
  ghost predicate SampleOf(outcome: ProbeOutcome, ip: IP, port: int) {
    outcome.Mapped? && outcome.result.port == port && Canonical(outcome.result.ip) == Canonical(ip)
  }

  /** The last c outcomes are samples of one address and port. */
  ghost predicate Agree(outcomes: seq<ProbeOutcome>, c: nat) {
    && 0 < c <= |outcomes|
    && outcomes[|outcomes| - 1].Mapped?
    && var last := outcomes[|outcomes| - 1].result;
       forall k :: |outcomes| - c <= k < |outcomes| ==> SampleOf(outcomes[k], last.ip, last.port)
  }

  ghost predicate AgreeAfter(trace: seq<ProbeStep>, n: nat, c: nat)
    requires n <= |trace|
  {
    Agree(Erase(trace[..n]), c)
  }

  /** n is the first point of the trace at which the last c outcomes agree. */
  ghost predicate FirstAgreement(trace: seq<ProbeStep>, n: nat, c: nat) {
    n <= |trace| && AgreeAfter(trace, n, c) && forall m :: 0 <= m < n ==> !AgreeAfter(trace, m, c)
  }

  /** Nothing stops the goroutine while it consumes the trace. */
  ghost predicate Undisturbed(trace: seq<ProbeStep>) {
    forall k :: 0 <= k < |trace| ==> !trace[k].cancelled && trace[k].outcome != OtherError(true)
  }

  // ----- The length of the current run of equal samples

  ghost function Streak(outcomes: seq<ProbeOutcome>): (n: nat)
    ensures n <= |outcomes|
    ensures n > 0 ==> Agree(outcomes, n)
  {
    if outcomes == [] || !outcomes[|outcomes| - 1].Mapped? then 0
    else
      var last := outcomes[|outcomes| - 1].result;
      var before := outcomes[..|outcomes| - 1];
      if Streak(before) > 0 && SampleOf(before[|before| - 1], last.ip, last.port) then
        assert forall k :: |outcomes| - 1 - Streak(before) <= k < |outcomes| - 1 ==> outcomes[k] == before[k];
        Streak(before) + 1
      else 1
  }

  /** The run is as long as it can be: the last c outcomes agree exactly when
      it has length at least c. */
  lemma {:induction false} AgreeIffStreak(outcomes: seq<ProbeOutcome>, c: nat)
    requires c > 0
    ensures Agree(outcomes, c) <==> Streak(outcomes) >= c
  {
    if Streak(outcomes) >= c {
      assert Agree(outcomes, Streak(outcomes));
    }
    if Agree(outcomes, c) && c > 1 {
      var n := |outcomes|;
      var before := outcomes[..n - 1];
      assert SampleOf(outcomes[n - 2], outcomes[n - 1].result.ip, outcomes[n - 1].result.port);
      var previous := outcomes[n - 2].result;
      forall k | n - c <= k < n - 1 ensures SampleOf(before[k], previous.ip, previous.port) {
        assert before[k] == outcomes[k];
      }
      AgreeIffStreak(before, c - 1);
    }
  }

  /** The shared progress record describes the outcomes so far, and they have
      not confirmed anything yet: 0 <= count < c between calls. */
  ghost predicate Tracks(candidate: StunResult, count: nat, outcomes: seq<ProbeOutcome>, c: nat) {
    && count == Streak(outcomes) < c
    && (count > 0 ==> SampleOf(outcomes[|outcomes| - 1], candidate.ip, candidate.port))
  }

  /** One more sample extends the run exactly when it matches the candidate. */
  lemma SampleExtendsStreak(candidate: StunResult, count: nat, outcomes: seq<ProbeOutcome>, c: nat, result: StunResult)
    requires Tracks(candidate, count, outcomes, c)
    ensures Streak(outcomes + [Mapped(result)]) == Count(candidate, count, result)
  {
    SameMappingMeans(candidate, result);
    hide SameMapping;
  }

  /** The candidate and count after one more sample. */
  function Count(candidate: StunResult, count: nat, result: StunResult): nat {
    if count == 0 || !SameMapping(candidate, result) then 1 else count + 1
  }

  /** What one more outcome does to the record. */
  lemma Absorb(candidate: StunResult, count: nat, trace: seq<ProbeStep>, n: nat, c: nat)
    requires n < |trace| && c > 0
    requires Tracks(candidate, count, Erase(trace[..n]), c)
    ensures match trace[n].outcome
            case RoundFailed =>
              !AgreeAfter(trace, n + 1, c) && Tracks(candidate, count, Erase(trace[..n + 1]), c)
            case OtherError(_) =>
              !AgreeAfter(trace, n + 1, c) && Tracks(ZERO_RESULT, 0, Erase(trace[..n + 1]), c)
            case Mapped(result) =>
              var count' := Count(candidate, count, result);
              && (AgreeAfter(trace, n + 1, c) <==> count' >= c)
              && (count' < c ==> Tracks(if count' == 1 then result else candidate, count', Erase(trace[..n + 1]), c))
  {
    EraseStep(trace, n);
    var outcomes := Erase(trace[..n + 1]);
    AgreeIffStreak(outcomes, c);
    match trace[n].outcome {
      case RoundFailed =>
      case OtherError(_) =>
        assert outcomes[|outcomes| - 1] == trace[n].outcome;
      case Mapped(result) =>
        SampleExtendsStreak(candidate, count, Erase(trace[..n]), c, result);
        SameMappingMeans(candidate, result);
        hide SameMapping;
    }
  }

  lemma EraseStep(trace: seq<ProbeStep>, n: nat)
    requires n < |trace|
    ensures Erase(trace[..n + 1]) ==
            if trace[n].outcome.RoundFailed? then Erase(trace[..n]) else Erase(trace[..n]) + [trace[n].outcome]
  {
    assert trace[..n + 1][..n] == trace[..n];
  }

  // ----- The code

  /** publicProbeMaxAttempts */
  function PublicProbeMaxAttempts(confirmations: int, endpointCount: int): (attempts: int)
    ensures confirmations <= 1 ==> attempts == 1
    ensures confirmations > 1 ==> EnoughAttempts(confirmations, endpointCount, attempts)
    ensures confirmations > 1 ==> !EnoughAttempts(confirmations, endpointCount, attempts - 1)
  {
    if confirmations <= 1 then 1
    else
      var endpoints := if endpointCount < 1 then 1 else endpointCount;
      var attempts := confirmations * endpoints * 2;
      if attempts < confirmations + 2 then confirmations + 2 else attempts
  }

  /** Room for two outliers, and for two rounds of confirmation at every server. */
  predicate EnoughAttempts(confirmations: int, endpointCount: int, attempts: int) {
    && attempts >= confirmations + 2
    && attempts >= confirmations * (if endpointCount < 1 then 1 else endpointCount) * 2
  }

  /** How many probes a call makes at most, and what it means that it fails: a failed
      round, or all attempts used up, as a stop exactly if the last error is one. */
  ghost predicate CallEnds(verdict: Verdict, trace: seq<ProbeStep>, from: nat, next: nat,
                           confirmations: int, endpointCount: int)
    requires from <= next <= |trace| && (!verdict.NoProbeYet? ==> from < next)
  {
    var max := PublicProbeMaxAttempts(confirmations, endpointCount);
    && next - from <= max
    && (verdict.NoProbeYet? ==> next - from < max)
    && (verdict.Failed? ==>
          || (trace[next - 1].outcome.RoundFailed? && !verdict.stops)
          || (next - from == max && (confirmations > 1 ==> !trace[next - 1].cancelled) &&
              (verdict.stops <==> trace[next - 1].outcome == OtherError(true))))
    && (forall k :: from <= k < next - 1 ==> !trace[k].outcome.RoundFailed?)
    && (verdict.Cancelled? || verdict.NoProbeYet? ==> from < next ==> !trace[next - 1].outcome.RoundFailed?)
  }

  /** confirmPublicProbeWithProgress: consume probes trace[from..next]. */
  method ConfirmPublicProbeWithProgress(confirmations: int, endpointCount: int, progress: ProbeProgress,
                                        trace: seq<ProbeStep>, from: nat)
    returns (verdict: Verdict, next: nat)
    requires from <= |trace|
    requires Tracks(progress.candidate, progress.count, Erase(trace[..from]), Need(confirmations))
    modifies progress
    ensures from <= next <= |trace|
    ensures verdict.NoProbeYet? ==> next == |trace|
    ensures !verdict.NoProbeYet? ==> from < next
    ensures forall m :: from <= m < next ==> !AgreeAfter(trace, m, Need(confirmations))
    ensures verdict.Confirmed? <==> AgreeAfter(trace, next, Need(confirmations))
    ensures verdict.Confirmed? ==> trace[next - 1].outcome == Mapped(verdict.result) && progress.count == 0
    ensures !verdict.Confirmed? ==>
      Tracks(progress.candidate, progress.count, Erase(trace[..next]), Need(confirmations))
    ensures forall k :: from <= k < next - 1 ==> !trace[k].cancelled
    ensures verdict.NoProbeYet? ==> forall k :: from <= k < next ==> !trace[k].cancelled
    ensures verdict.Cancelled? ==> trace[next - 1].cancelled
    ensures verdict == Failed(true) ==> trace[next - 1].outcome == OtherError(true)
    ensures CallEnds(verdict, trace, from, next, confirmations, endpointCount)
  {
    hide Erase, Streak, Agree, AgreeAfter;
    ghost var need := Need(confirmations);
    next := from;
    NotYet(progress.candidate, progress.count, trace, from, need);
    if confirmations <= 1 {
      verdict, next := AcceptOneSample(progress, trace, from);
      return;
    }

    var maxAttempts := PublicProbeMaxAttempts(confirmations, endpointCount);
    var candidate, candidateCount := progress.candidate, progress.count;
    var lastErr: Option<bool> := None; // of the last error, whether it stops the goroutine
    var attempt := 1;
    while attempt <= maxAttempts
      invariant from <= next <= |trace| && 1 <= attempt <= maxAttempts + 1
      invariant attempt > 1 ==> from < next
      invariant forall m :: from <= m <= next ==> !AgreeAfter(trace, m, need)
      invariant forall k :: from <= k < next ==> !trace[k].cancelled
      invariant candidate == progress.candidate && candidateCount == progress.count
      invariant Tracks(candidate, candidateCount, Erase(trace[..next]), need)
      invariant next == from + attempt - 1
      invariant forall k :: from <= k < next ==> !trace[k].outcome.RoundFailed?
      invariant from < next ==> (lastErr == Some(true) <==> trace[next - 1].outcome == OtherError(true))
      invariant from == next ==> lastErr.None?
      invariant from < next && trace[next - 1].outcome.OtherError? ==> candidateCount == 0
      decreases maxAttempts - attempt
    {
      if next == |trace| {
        return NoProbeYet, next;
      }
      var step := trace[next];
      Absorb(candidate, candidateCount, trace, next, need);
      next := next + 1;
      match step.outcome {
        case RoundFailed =>
          progress.candidate, progress.count := candidate, candidateCount;
          return Failed(false), next;
        case OtherError(stops) =>
          lastErr := Some(stops);
          candidate, candidateCount := ZERO_RESULT, 0;
          progress.candidate, progress.count := candidate, candidateCount;
        case Mapped(result) =>
          lastErr := None;
          if candidateCount == 0 || !SameMapping(candidate, result) {
            candidate, candidateCount := result, 1;
          } else {
            candidateCount := candidateCount + 1;
          }
          progress.candidate, progress.count := candidate, candidateCount;
          if candidateCount >= confirmations {
            progress.candidate, progress.count := ZERO_RESULT, 0;
            return Confirmed(result), next;
          }
      }
      if step.cancelled {
        return Cancelled, next;
      }
      attempt := attempt + 1;
    }
    if candidateCount > 0 {
      return Failed(false), next;
    }
    return Failed(lastErr == Some(true)), next;
  }

  /** The branch for a confirmation count of at most one, which leaves the
      progress record alone. */
  method AcceptOneSample(progress: ProbeProgress, trace: seq<ProbeStep>, from: nat)
    returns (verdict: Verdict, next: nat)
    requires from <= |trace|
    requires Tracks(progress.candidate, progress.count, Erase(trace[..from]), 1)
    ensures verdict.NoProbeYet? ==> next == from == |trace|
    ensures !verdict.NoProbeYet? ==> next == from + 1 <= |trace|
    ensures verdict.Confirmed? <==> AgreeAfter(trace, next, 1)
    ensures verdict.Confirmed? ==> trace[from].outcome == Mapped(verdict.result)
    ensures !verdict.Confirmed? ==> Tracks(progress.candidate, progress.count, Erase(trace[..next]), 1)
    ensures !verdict.Cancelled?
    ensures verdict.Failed? ==>
      if trace[from].outcome.RoundFailed? then !verdict.stops else trace[from].outcome == OtherError(verdict.stops)
  {
    next := from;
    NotYet(progress.candidate, progress.count, trace, from, 1);
    if next == |trace| {
      return NoProbeYet, next;
    }
    Absorb(progress.candidate, progress.count, trace, next, 1);
    next := next + 1;
    match trace[from].outcome
    case Mapped(result) => return Confirmed(result), next;
    case RoundFailed => return Failed(false), next;
    case OtherError(stops) => return Failed(stops), next;
  }

  lemma NotYet(candidate: StunResult, count: nat, trace: seq<ProbeStep>, n: nat, c: nat)
    requires n <= |trace| && c > 0
    requires Tracks(candidate, count, Erase(trace[..n]), c)
    ensures !AgreeAfter(trace, n, c)
  {
    AgreeIffStreak(Erase(trace[..n]), c);
  }

  lemma IsFirst(trace: seq<ProbeStep>, n: nat, c: nat)
    requires n <= |trace| && AgreeAfter(trace, n, c) && forall m :: 0 <= m < n ==> !AgreeAfter(trace, m, c)
    ensures forall k :: FirstAgreement(trace, k, c) <==> k == n
  {
    hide AgreeAfter;
  }

  lemma NoFirst(trace: seq<ProbeStep>, c: nat)
    requires forall m :: 0 <= m <= |trace| ==> !AgreeAfter(trace, m, c)
    ensures forall k :: !FirstAgreement(trace, k, c)
  {
    hide AgreeAfter;
  }

  /** The body of the goroutine that startTCPPublicProbe and startUDPPublicProbe
      start: exact confirmation over its whole trace. Nothing in this contract
      depends on endpointCount, that is, on how the trace is cut into calls, and
      nothing in it mentions a probe of an earlier goroutine. */
  method PublicProbe(confirmations: int, endpointCount: int, trace: seq<ProbeStep>, cancelledAtStart: bool)
    returns (end: ProbeEnd)
    ensures end.Published? ==>
      && FirstAgreement(trace, end.at, Need(confirmations))
      && end.at > 0 && trace[end.at - 1].outcome == Mapped(end.result)
      && !cancelledAtStart && forall k :: 0 <= k < end.at ==> !trace[k].cancelled
    ensures end.Stopped? ==>
      && end.at <= |trace|
      && (forall m :: 0 <= m < end.at ==> !AgreeAfter(trace, m, Need(confirmations)))
      && (if end.at == 0 then cancelledAtStart
          else trace[end.at - 1].cancelled || trace[end.at - 1].outcome == OtherError(true))
    ensures end.StillProbing? ==>
      && (forall m :: 0 <= m <= |trace| ==> !AgreeAfter(trace, m, Need(confirmations)))
      && forall k :: 0 <= k < |trace| ==> !trace[k].cancelled
    ensures !cancelledAtStart && Undisturbed(trace) ==>
      forall n :: FirstAgreement(trace, n, Need(confirmations)) <==> end.Published? && end.at == n
  {
    var progress := new ProbeProgress();
    var next: nat := 0;
    var cancelled := cancelledAtStart;
    assert Tracks(progress.candidate, 0, Erase(trace[..0]), Need(confirmations));
    hide Erase, Streak, Tracks, AgreeAfter, FirstAgreement, CallEnds;
    while true
      invariant next <= |trace|
      invariant Tracks(progress.candidate, progress.count, Erase(trace[..next]), Need(confirmations))
      invariant forall m :: 0 <= m < next ==> !AgreeAfter(trace, m, Need(confirmations))
      invariant forall k :: 0 <= k < next - 1 ==> !trace[k].cancelled
      invariant cancelled == if next == 0 then cancelledAtStart else trace[next - 1].cancelled
      invariant next > 0 ==> !cancelledAtStart && !cancelled
      decreases |trace| - next
    {
      if cancelled {
        return Stopped(next);
      }
      var verdict;
      verdict, next := ConfirmPublicProbeWithProgress(confirmations, endpointCount, progress, trace, next);
      if verdict.NoProbeYet? {
        NoFirst(trace, Need(confirmations));
        return StillProbing;
      }
      cancelled := trace[next - 1].cancelled;
      if cancelled || verdict.Cancelled? || verdict == Failed(true) {
        return Stopped(next);
      }
      if verdict.Confirmed? {
        IsFirst(trace, next, Need(confirmations));
        return Published(next, verdict.result);
      }
    }
  }
}
