/** What a runner publishes: whether a confirmed mapping is a change, and since
    when the public mapping has been stable. The clock is a parameter. */
module Publication {
  import opened Net
  import opened Wrappers

  datatype MappingEvent = MappingEvent(publicIP: IP, publicPort: int, privateIP: IP, privatePort: int, protocol: string)

  /** The public part of two mappings agrees. */
  predicate SamePublic(a: MappingEvent, b: MappingEvent) {
    a.publicPort == b.publicPort && a.protocol == b.protocol && IPEqual(a.publicIP, b.publicIP)
  }

  /** Two mappings agree as five-tuples. */
  predicate SameFiveTuple(a: MappingEvent, b: MappingEvent) {
    SamePublic(a, b) && a.privatePort == b.privatePort && IPEqual(a.privateIP, b.privateIP)
  }

  /** What is compared, apart from the spelling of addresses. */
  lemma SamePublicMeans(a: MappingEvent, b: MappingEvent)
    ensures SamePublic(a, b) <==>
            a.publicPort == b.publicPort && a.protocol == b.protocol && Canonical(a.publicIP) == Canonical(b.publicIP)
    ensures SameFiveTuple(a, b) <==>
            SamePublic(a, b) && a.privatePort == b.privatePort && Canonical(a.privateIP) == Canonical(b.privateIP)
  {
    IPEqualIffCanonical(a.publicIP, b.publicIP);
    IPEqualIffCanonical(a.privateIP, b.privateIP);
  }

  lemma SameAsItself(a: MappingEvent)
    ensures SamePublic(a, a) && SameFiveTuple(a, a)
  {
  }

  lemma SamePublicTransfers(a: MappingEvent, b: MappingEvent, c: MappingEvent)
    requires SameFiveTuple(a, b)
    ensures SamePublic(a, c) == SamePublic(b, c)
    ensures SameFiveTuple(a, c) == SameFiveTuple(b, c)
  {
  }

  lemma SamePublicTransitive(a: MappingEvent, b: MappingEvent, c: MappingEvent)
    ensures SamePublic(a, a)
    ensures SamePublic(a, b) ==> SamePublic(b, a)
    ensures SamePublic(a, b) && SamePublic(b, c) ==> SamePublic(a, c)
  {
  }

  // ----- The state and one publication

  /** The fields of a Runner that mapMu guards. */
  datatype MapState = MapState(lastMap: Option<MappingEvent>, logEmitted: bool, stableSince: Time, updatedAt: Time)

  const FRESH := MapState(None, false, 0, 0)

  /** What one publication tells its caller. */
  datatype Report = Report(changed: bool, stableSince: Time, updatedAt: Time, emitLog: bool)

  function PublishStep(s: MapState, event: MappingEvent, now: Time): (MapState, Report) {
    var publicChanged := s.lastMap.None? || !SamePublic(s.lastMap.value, event);
    var stableSince := if publicChanged || s.stableSince == 0 then now else s.stableSince;
    var updatedAt := if publicChanged || s.updatedAt == 0 then now else s.updatedAt;
    var changed := s.lastMap.None? || !SameFiveTuple(s.lastMap.value, event);
    var emitLog := changed || !s.logEmitted;
    (MapState(if changed then Some(event) else s.lastMap, true, stableSince, updatedAt),
     Report(changed, stableSince, updatedAt, emitLog))
  }

  /** The mapping a runner keeps between publications. */
  class MappingKeeper {
    var lastMap: Option<MappingEvent>
    var mappingLogEmitted: bool
    var publicStableSince: Time
    var publicUpdatedAt: Time

    ghost function State(): MapState
      reads this
    {
      MapState(lastMap, mappingLogEmitted, publicStableSince, publicUpdatedAt)
    }

    constructor ()
      ensures State() == FRESH
    {
      lastMap, mappingLogEmitted, publicStableSince, publicUpdatedAt := None, false, 0, 0;
    }

    /** seedRuntime, given the parsed addresses: None for one that does not parse. */
    method SeedRuntime(publicAddress: string, publicIP: Option<IP>, publicPort: int, stableSince: Time, updatedAt: Time,
                       privateIP: Option<IP>, privatePort: int, protocol: string, configProtocol: string)
      modifies this
      ensures State() == Seed(old(State()), publicAddress, publicIP, publicPort, stableSince, updatedAt,
                              privateIP, privatePort, protocol, configProtocol)
    {
      if publicAddress == "" || publicPort == 0 || publicIP.None? {
        return;
      }
      var proto := if protocol == "" then configProtocol else protocol;
      var private := if privateIP.None? then [] else privateIP.value;
      lastMap := Some(MappingEvent(publicIP.value, publicPort, private, privatePort, proto));
      publicStableSince := stableSince;
      publicUpdatedAt := updatedAt;
    }

    /** updateMappingLocked */
    method UpdateMappingLocked(event: MappingEvent, now: Time)
      returns (changed: bool, stableSince: Time, updatedAt: Time)
      modifies this
      ensures var (s, r) := PublishStep(old(State()), event, now);
              && State() == s.(logEmitted := old(mappingLogEmitted))
              && changed == r.changed && stableSince == r.stableSince && updatedAt == r.updatedAt
    {
      var publicChanged := lastMap.None? || lastMap.value.publicPort != event.publicPort ||
                           lastMap.value.protocol != event.protocol || !IPEqual(lastMap.value.publicIP, event.publicIP);
      if publicChanged || publicStableSince == 0 {
        publicStableSince := now;
      }
      if publicChanged || publicUpdatedAt == 0 {
        publicUpdatedAt := now;
      }
      if lastMap.Some? && lastMap.value.publicPort == event.publicPort &&
         lastMap.value.privatePort == event.privatePort && lastMap.value.protocol == event.protocol &&
         IPEqual(lastMap.value.publicIP, event.publicIP) && IPEqual(lastMap.value.privateIP, event.privateIP)
      {
        return false, publicStableSince, publicUpdatedAt;
      }
      lastMap := Some(event);
      return true, publicStableSince, publicUpdatedAt;
    }

    /** updateMappingForPublish */
    method UpdateMappingForPublish(event: MappingEvent, now: Time) returns (report: Report)
      modifies this
      ensures (State(), report) == PublishStep(old(State()), event, now)
    {
      var changed, stableSince, updatedAt := UpdateMappingLocked(event, now);
      var emitMappedLog := changed || !mappingLogEmitted;
      if emitMappedLog {
        mappingLogEmitted := true;
      }
      return Report(changed, stableSince, updatedAt, emitMappedLog);
    }
  }

  function Seed(s: MapState, publicAddress: string, publicIP: Option<IP>, publicPort: int, stableSince: Time,
                updatedAt: Time, privateIP: Option<IP>, privatePort: int, protocol: string, configProtocol: string)
    : MapState
  {
    if publicAddress == "" || publicPort == 0 || publicIP.None? then s
    else
      s.(lastMap := Some(MappingEvent(publicIP.value, publicPort, if privateIP.None? then [] else privateIP.value,
                                      privatePort, if protocol == "" then configProtocol else protocol)),
         stableSince := stableSince, updatedAt := updatedAt)
  }

  // ----- Whole histories

  datatype Publish = Publish(event: MappingEvent, at: Time)

  function After(s: MapState, history: seq<Publish>): MapState {
    if history == [] then s
    else
      var last := history[|history| - 1];
      PublishStep(After(s, history[..|history| - 1]), last.event, last.at).0
  }

  /** The report of publication n. */
  function ReportOf(s: MapState, history: seq<Publish>, n: nat): Report
    requires n < |history|
  {
    PublishStep(After(s, history[..n]), history[n].event, history[n].at).1
  }

  /** j starts the maximal run of publications with the public mapping of n. */
  predicate RunStart(history: seq<Publish>, j: nat, n: nat)
    requires n < |history|
  {
    && j <= n
    && (forall k :: j <= k <= n ==> SamePublic(history[k].event, history[n].event))
    && (j > 0 ==> !SamePublic(history[j - 1].event, history[n].event))
  }

  predicate SeedContinues(s: MapState, event: MappingEvent) {
    s.lastMap.Some? && SamePublic(s.lastMap.value, event)
  }

  /** The time a run counts from: that of its first event, or a non-zero seeded
      time when the run began before the seed. */
  function RunTime(s: MapState, seeded: Time, history: seq<Publish>, j: nat): Time
    requires j < |history|
  {
    if j == 0 && SeedContinues(s, history[0].event) && seeded != 0 then seeded else history[j].at
  }

  ghost predicate Dated(history: seq<Publish>) {
    forall k :: 0 <= k < |history| ==> history[k].at != 0
  }

  lemma {:induction false} RunStartExists(history: seq<Publish>, n: nat) returns (j: nat)
    requires n < |history|
    ensures RunStart(history, j, n)
  {
    SamePublicTransitive(history[n].event, history[n].event, history[n].event);
    if n == 0 || !SamePublic(history[n - 1].event, history[n].event) {
      j := n;
    } else {
      j := RunStartExists(history, n - 1);
      RunStartStep(history, j, n);
    }
  }

  lemma RunStartStep(history: seq<Publish>, j: nat, n: nat)
    requires 0 < n < |history| && j < n
    requires SamePublic(history[n - 1].event, history[n].event)
    ensures RunStart(history, j, n - 1) <==> RunStart(history, j, n)
  {
  }

  /** What the program promises about publication n, whose run starts at j: the
      remembered mapping is the last one published; publication n is a change
      exactly when the five-tuples of its neighbour and its own differ; both times
      count from the start of the current run of one public mapping; the mapping is
      logged on a change and on the first publication. */
  predicate Kept(s: MapState, history: seq<Publish>, n: nat, j: nat)
    requires j <= n < |history|
  {
    var event := history[n].event;
    var s' := After(s, history[..n + 1]);
    var r := ReportOf(s, history, n);
    && s'.lastMap.Some? && SameFiveTuple(s'.lastMap.value, event)
    && (r.changed <==>
        if n == 0 then s.lastMap.None? || !SameFiveTuple(s.lastMap.value, event)
        else !SameFiveTuple(history[n - 1].event, event))
    && r.stableSince == s'.stableSince == RunTime(s, s.stableSince, history, j)
    && r.updatedAt == s'.updatedAt == RunTime(s, s.updatedAt, history, j)
    && (r.emitLog <==> r.changed || (n == 0 && !s.logEmitted))
    && s'.logEmitted
  }

  /** The history theorem: from any state, all this holds for every publication. */
  lemma {:induction false} PublicationHistory(s: MapState, history: seq<Publish>, n: nat, j: nat)
    requires n < |history| && Dated(history) && RunStart(history, j, n)
    ensures Kept(s, history, n, j)
  {
    LastStep(s, history, n);
    StepMeans(After(s, history[..n]), history[n].event, history[n].at);
    if n == 0 {
      assert history[..0] == [];
      hide PublishStep, SamePublic, SameFiveTuple;
    } else {
      var i := RunStartExists(history, n - 1);
      PublicationHistory(s, history, n - 1, i);
      hide *;
      NextPublication(s, history, n, i, j);
    }
  }

  lemma NextPublication(s: MapState, history: seq<Publish>, n: nat, i: nat, j: nat)
    requires 0 < n < |history| && Dated(history) && RunStart(history, i, n - 1) && RunStart(history, j, n)
    requires Kept(s, history, n - 1, i)
    ensures Kept(s, history, n, j)
  {
    var event := history[n].event;
    var before := After(s, history[..n]);
    assert i <= n - 1 && j <= n;
    LastStep(s, history, n);
    hide PublishStep, After, ReportOf, RunStart, SamePublic, SameFiveTuple;
    StepMeans(before, event, history[n].at);
    SamePublicTransfers(before.lastMap.value, history[n - 1].event, event);
    if SamePublic(history[n - 1].event, event) {
      RunStartStep(history, i, n);
      RunStartUnique(history, i, j, n);
    } else {
      RunStartAtChange(history, j, n);
    }
  }

  lemma LastStep(s: MapState, history: seq<Publish>, n: nat)
    requires n < |history|
    ensures (After(s, history[..n + 1]), ReportOf(s, history, n)) ==
            PublishStep(After(s, history[..n]), history[n].event, history[n].at)
  {
    assert history[..n + 1][..n] == history[..n];
    hide PublishStep;
  }

  /** What one publication does, told apart from how. */
  lemma StepMeans(s: MapState, event: MappingEvent, now: Time)
    ensures var (s', r) := PublishStep(s, event, now);
            && s'.lastMap.Some? && SameFiveTuple(s'.lastMap.value, event)
            && (r.changed <==> s.lastMap.None? || !SameFiveTuple(s.lastMap.value, event))
            && r.stableSince == s'.stableSince ==
               (if SeedContinues(s, event) && s.stableSince != 0 then s.stableSince else now)
            && r.updatedAt == s'.updatedAt == (if SeedContinues(s, event) && s.updatedAt != 0 then s.updatedAt else now)
            && (r.emitLog <==> r.changed || !s.logEmitted) && s'.logEmitted
  {
    SameAsItself(event);
    hide SamePublic, SameFiveTuple;
  }

  lemma RunStartAtChange(history: seq<Publish>, j: nat, n: nat)
    requires 0 < n < |history| && RunStart(history, j, n) && !SamePublic(history[n - 1].event, history[n].event)
    ensures j == n
  {
  }

  lemma RunStartUnique(history: seq<Publish>, i: nat, j: nat, n: nat)
    requires n < |history| && RunStart(history, i, n) && RunStart(history, j, n)
    ensures i == j
  {
  }

  /** The mapping that publication n follows: the one published before it, or for
      the first one the seeded mapping. */
  function Before(s: MapState, history: seq<Publish>, n: nat): MappingEvent
    requires n < |history| && (n == 0 ==> s.lastMap.Some?)
  {
    if n == 0 then s.lastMap.value else history[n - 1].event
  }

  /** The documentation promises a notification only when the public mapping
      changes. The code notifies without such a change, within a history or right
      after a seed, exactly when the same public mapping comes back on another
      private endpoint. */
  lemma NotifyWithoutPublicChange(s: MapState, history: seq<Publish>, n: nat)
    requires n < |history| && Dated(history) && (n == 0 ==> s.lastMap.Some?)
    ensures var before, event := Before(s, history, n), history[n].event;
            ReportOf(s, history, n).changed && SamePublic(before, event) <==>
            SamePublic(before, event) &&
            (before.privatePort != event.privatePort || !IPEqual(before.privateIP, event.privateIP))
  {
    var j := RunStartExists(history, n);
    PublicationHistory(s, history, n, j);
    hide After, ReportOf, SamePublic, RunTime, IPEqual;
  }

  /** A publication whose public address, public port or protocol differs from the
      remembered one is a change and restarts both times; one that differs only in
      the private endpoint is a change and restarts neither. */
  lemma WhatCountsAsChange(s: MapState, event: MappingEvent, now: Time)
    requires s.lastMap.Some?
    ensures var (was, r) := (s.lastMap.value, PublishStep(s, event, now).1);
            var moved := Canonical(was.publicIP) != Canonical(event.publicIP) || was.publicPort != event.publicPort ||
                         was.protocol != event.protocol;
            var rebound := Canonical(was.privateIP) != Canonical(event.privateIP) ||
                           was.privatePort != event.privatePort;
            && (r.changed <==> moved || rebound)
            && r.stableSince == (if moved || s.stableSince == 0 then now else s.stableSince)
            && r.updatedAt == (if moved || s.updatedAt == 0 then now else s.updatedAt)
  {
    SamePublicMeans(s.lastMap.value, event);
    hide SamePublic, SameFiveTuple;
  }

  /** The first publication of a runner that knows no mapping is a change, is logged,
      and starts both times. */
  lemma FirstPublication(event: MappingEvent, now: Time)
    ensures var (s, r) := PublishStep(FRESH, event, now);
            && r == Report(true, now, now, true)
            && s == MapState(Some(event), true, now, now)
  {
  }

  /** A seed takes over a mapping that has an address that parses and a port, with its
      times; otherwise the runner knows what it knew. A private address that does not
      parse is left out, and the protocol defaults to that of the instance. */
  lemma WhatASeedBrings(s: MapState, publicAddress: string, publicIP: Option<IP>, publicPort: int, stableSince: Time,
                        updatedAt: Time, privateIP: Option<IP>, privatePort: int, protocol: string,
                        configProtocol: string)
    ensures var seeded := Seed(s, publicAddress, publicIP, publicPort, stableSince, updatedAt,
                               privateIP, privatePort, protocol, configProtocol);
            var usable := publicAddress != "" && publicPort != 0 && publicIP.Some?;
            && seeded.logEmitted == s.logEmitted
            && (!usable ==> seeded == s)
            && (usable ==>
                  && seeded.stableSince == stableSince && seeded.updatedAt == updatedAt && seeded.lastMap.Some?
                  && var m := seeded.lastMap.value;
                     && m.publicIP == publicIP.value && m.publicPort == publicPort && m.privatePort == privatePort
                     && (privateIP.Some? ==> m.privateIP == privateIP.value) && (privateIP.None? ==> m.privateIP == [])
                     && (protocol != "" ==> m.protocol == protocol)
                     && (protocol == "" ==> m.protocol == configProtocol))
  {
  }

  const PUBLIC_IP: IP := [203, 0, 113, 8]
  const PRIVATE_IP: IP := [192, 168, 1, 10]

  /** An input on which the documented promise fails. */
  lemma PrivatePortChangeNotifies()
    ensures var history := [Publish(MappingEvent(PUBLIC_IP, 5000, PRIVATE_IP, 200, "tcp"), 1),
                            Publish(MappingEvent(PUBLIC_IP, 5000, PRIVATE_IP, 201, "tcp"), 2)];
            SamePublic(history[0].event, history[1].event) && ReportOf(FRESH, history, 1).changed
  {
  }

  /** And one right after a seed, as in a restart or a new run of an instance. */
  lemma SeededPrivatePortChangeNotifies()
    ensures var seeded := Seed(FRESH, "203.0.113.8", Some(PUBLIC_IP), 5000, 1, 1, Some(PRIVATE_IP), 200, "tcp", "tcp");
            var history := [Publish(MappingEvent(PUBLIC_IP, 5000, PRIVATE_IP, 201, "tcp"), 2)];
            && SamePublic(Before(seeded, history, 0), history[0].event)
            && ReportOf(seeded, history, 0).changed
  {
  }
}
