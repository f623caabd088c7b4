/** Publishing across a restart of the process: what a runner publishes reaches
    the store through the manager's report, and seeds the runner that a fresh
    manager starts over the same store. */
module Restart {
  import opened Configs
  import opened Lifecycle
  import opened Net
  import opened Persistence
  import opened Status
  import opened Store
  import opened StoreRuns
  import opened Wrappers
  import P = Publication

  /** Printing and parsing of addresses. */
  datatype IPText = IPText(format: IP -> string, parse: string -> Option<IP>) {
    /** Addresses of 4 and 16 bytes survive, up to net.IP.Equal. */
    ghost predicate Correct() {
      forall ip :: IsAddress(ip) ==>
        format(ip) != "" && parse(format(ip)).Some? && IPEqual(parse(format(ip)).value, ip)
    }
  }

  predicate IsAddress(ip: IP) {
    |ip| == 4 || |ip| == 16
  }

  predicate ValidEvent(e: P.MappingEvent) {
    IsAddress(e.publicIP) && IsAddress(e.privateIP) && e.protocol != ""
  }

  /** The update that publishMapping emits. */
  function PublishUpdate(text: IPText, e: P.MappingEvent, r: P.Report, logs: seq<LogEntry>, now: Time): RuntimeStatus {
    NO_UPDATE.(state := Running, lastChange := now,
               publicAddress := text.format(e.publicIP), publicPort := e.publicPort,
               publicStableSince := r.stableSince, publicUpdatedAt := r.updatedAt,
               privateAddress := text.format(e.privateIP), privatePort := e.privatePort,
               protocol := e.protocol, logs := logs)
  }

  /** The manager and the databases of its store, in memory and in the file. */
  datatype World = World(core: Core, stores: Stores)

  /** What happens to them: a report, or an operation on the store. `written` says
      whether the store can write its file. */
  datatype Event =
    | Reports(id: string, update: RuntimeStatus, now: Time, written: bool)
    | Changes(op: Op)

  function Happened(w: World, event: Event, isIPv4: string -> bool): World {
    match event
    case Reports(id, update, now, written) =>
      var core := ReportSection(w.core, id, update, now);
      World(core, if !Persists(update) then w.stores
                  else Step(w.stores, SaveStatus(id, core.status[id], written), isIPv4))
    case Changes(op) => w.(stores := Step(w.stores, op, isIPv4))
  }

  function AllHappened(w: World, events: seq<Event>, isIPv4: string -> bool): World {
    if events == [] then w
    else Happened(AllHappened(w, events[..|events| - 1], isIPv4), events[|events| - 1], isIPv4)
  }

  /** The process goes on, and the stored mapping of the instance is left alone: it
      is not deleted, cleared or saved, and its reports publish nothing. */
  predicate Spares(event: Event, id: string) {
    match event
    case Reports(other, update, _, _) => other == id ==> !Persists(update)
    case Changes(op) =>
      !op.Restart? && (op.Delete? || op.SaveStatus? || op.ClearStatus? ==> op.id != id)
  }

  /** seedRuntime of a new runner from a status. */
  function SeededFrom(text: IPText, seed: RuntimeStatus, configProtocol: string): P.MapState {
    P.Seed(P.FRESH, seed.publicAddress, text.parse(seed.publicAddress), seed.publicPort,
           seed.publicStableSince, seed.publicUpdatedAt,
           text.parse(seed.privateAddress), seed.privatePort, seed.protocol, configProtocol)
  }

  /** The mapping state of the runner that a fresh manager starts over a store. */
  function Restarted(text: IPText, runtime: map<string, PersistedStatus>, id: string, configProtocol: string, now: Time)
    : P.MapState
  {
    SeededFrom(text, SeedFor(Core(map[], map[]), runtime, id, now), configProtocol)
  }

  /** A report persists exactly the mapping it publishes, as far as the merge
      takes its fields over. */
  lemma ReportPersists(w: World, id: string, text: IPText, e: P.MappingEvent, r: P.Report, logs: seq<LogEntry>,
                       now: Time, written: bool, isIPv4: string -> bool)
    requires id != "" && text.Correct() && ValidEvent(e) && e.publicPort != 0
    requires r.stableSince != 0 && r.updatedAt != 0
    ensures var report := Reports(id, PublishUpdate(text, e, r, logs, now), now, written);
            EntryOf(Happened(w, report, isIPv4).stores.db.runtime, id) ==
            Some(PersistedStatus(
              text.format(e.publicIP), e.publicPort, r.stableSince, r.updatedAt, text.format(e.privateIP),
              if e.privatePort != 0 then e.privatePort else StatusOf(w.core, id, now).privatePort, e.protocol))
  {
    hide MergeKeepAlive, Last;
  }

  /** What memory holds for the instance is in the file. */
  predicate OnFile(s: Stores, id: string) {
    EntryOf(s.db.runtime, id) == EntryOf(s.disk.runtime, id)
  }

  /** Every save of the store writes everything: after any operation that writes the
      file, of whatever kind, all mappings are in it, also those whose own write has
      failed. */
  lemma AnyWriteIsOnFile(s: Stores, op: Op, isIPv4: string -> bool, id: string)
    requires Writes(s, op, isIPv4)
    ensures Step(s, op, isIPv4).disk == Step(s, op, isIPv4).db && OnFile(Step(s, op, isIPv4), id)
  {
    hide Attempt;
  }

  /** A report brings the file up to date if it is written and changes what is
      stored, or if the file was up to date. */
  lemma ReportIsOnFile(w: World, id: string, update: RuntimeStatus, now: Time, isIPv4: string -> bool)
    requires Persists(update)
    ensures var w' := Happened(w, Reports(id, update, now, true), isIPv4);
            w'.stores.db != w.stores.db || w.stores.disk == w.stores.db ==> OnFile(w'.stores, id)
  {
    hide ReportSection, Save;
  }

  lemma SparedStep(w: World, event: Event, isIPv4: string -> bool, id: string)
    requires Spares(event, id)
    ensures var s, s' := w.stores, Happened(w, event, isIPv4).stores;
            EntryOf(s'.db.runtime, id) == EntryOf(s.db.runtime, id) && (OnFile(s, id) ==> OnFile(s', id))
  {
    hide ReportSection, ToAdd, Normalized, CheckConfig, StoredLists, ListError, FirstBlocker;
  }

  /** Events that spare an instance leave what is stored for it alone; and what is
      in the file stays in the file, written or not. */
  lemma {:induction false} SparedStaysStored(w: World, id: string, events: seq<Event>, isIPv4: string -> bool)
    requires forall k :: 0 <= k < |events| ==> Spares(events[k], id)
    ensures var s := AllHappened(w, events, isIPv4).stores;
            EntryOf(s.db.runtime, id) == EntryOf(w.stores.db.runtime, id) && (OnFile(w.stores, id) ==> OnFile(s, id))
  {
    hide Happened;
    if events == [] {
    } else {
      var before := events[..|events| - 1];
      SparedStaysStored(w, id, before, isIPv4);
      SparedStep(AllHappened(w, before, isIPv4), events[|events| - 1], isIPv4, id);
    }
  }

  /** The event has written the file. */
  predicate WritesFile(w: World, event: Event, isIPv4: string -> bool) {
    match event
    case Reports(id, update, now, written) =>
      Persists(update) &&
      Writes(w.stores, SaveStatus(id, ReportSection(w.core, id, update, now).status[id], written), isIPv4)
    case Changes(op) => Writes(w.stores, op, isIPv4)
  }

  lemma WriteIsOnFile(w: World, event: Event, isIPv4: string -> bool, id: string)
    requires WritesFile(w, event, isIPv4)
    ensures OnFile(Happened(w, event, isIPv4).stores, id)
  {
    hide Merge, StatusOf, Step, Writes, OnFile;
    match event
    case Reports(other, update, now, written) =>
      var status := ReportSection(w.core, other, update, now).status[other];
      AnyWriteIsOnFile(w.stores, SaveStatus(other, status, written), isIPv4, id);
    case Changes(op) => AnyWriteIsOnFile(w.stores, op, isIPv4, id);
  }

  /** So one successful write of any kind is enough for the file to hold the mapping
      from then on. */
  lemma {:induction false} OneWriteIsEnough(w: World, id: string, events: seq<Event>, k: nat, isIPv4: string -> bool)
    requires k < |events| && forall i :: 0 <= i < |events| ==> Spares(events[i], id)
    requires WritesFile(AllHappened(w, events[..k], isIPv4), events[k], isIPv4)
    ensures OnFile(AllHappened(w, events, isIPv4).stores, id)
    decreases |events|
  {
    hide Happened, WritesFile, OnFile, Spares;
    var n := |events| - 1;
    var before := events[..n];
    var mid := AllHappened(w, before, isIPv4);
    if k == n {
      WriteIsOnFile(mid, events[n], isIPv4, id);
    } else {
      assert before[..k] == events[..k];
      OneWriteIsEnough(w, id, before, k, isIPv4);
      SparedStep(mid, events[n], isIPv4, id);
    }
  }

  /** Without a stored port, a restarted runner never holds port 0 as its mapping. */
  lemma RestartedPortIsNotZero(text: IPText, runtime: map<string, PersistedStatus>, id: string, configProtocol: string,
                               now: Time)
    ensures var m := Restarted(text, runtime, id, configProtocol, now);
            m.lastMap.Some? ==> m.lastMap.value.publicPort != 0
  {
  }

  /** The restart round trip. A runner in any state publishes a mapping; any events
      follow that spare it; the process restarts over the same file, which holds
      what the store held, and the new runner publishes the same five-tuple. That is
      no change, so nobody is notified again, and the times are those of the first
      publication: exactly if the public port is not 0 and the report did not keep an
      older private port. The file holds it if the report was written to a file that
      was up to date, or if any later write of the store succeeded. */
  lemma RestartRoundTrip(text: IPText, m: P.MapState, w: World, id: string, e: P.MappingEvent, at: Time,
                         logs: seq<LogEntry>, now: Time, written: bool, events: seq<Event>, isIPv4: string -> bool,
                         configProtocol: string, startedAt: Time, e': P.MappingEvent, at': Time)
    requires id != "" && text.Correct() && ValidEvent(e) && ValidEvent(e') && P.SameFiveTuple(e, e') && at != 0
    requires forall k :: 0 <= k < |events| ==> Spares(events[k], id)
    ensures var r := P.PublishStep(m, e, at).1;
            var published := Happened(w, Reports(id, PublishUpdate(text, e, r, logs, now), now, written), isIPv4);
            var s' := AllHappened(published, events, isIPv4).stores;
            var r' := P.PublishStep(Restarted(text, s'.disk.runtime, id, configProtocol, startedAt), e', at').1;
            var survives := e.publicPort != 0 && (e.privatePort != 0 || StatusOf(w.core, id, now).privatePort == 0);
            && (OnFile(s', id) ==> (!r'.changed <==> survives))
            && (OnFile(s', id) && survives ==> r'.stableSince == r.stableSince && r'.updatedAt == r.updatedAt)
            && (w.stores.disk == w.stores.db && written ==> OnFile(s', id))
            && ((exists k :: 0 <= k < |events| &&
                  WritesFile(AllHappened(published, events[..k], isIPv4), events[k], isIPv4))
                ==> OnFile(s', id))
  {
    var r := P.PublishStep(m, e, at).1;
    var update := PublishUpdate(text, e, r, logs, now);
    assert Persists(update);
    ReportIsOnFile(w, id, update, now, isIPv4);
    var published := Happened(w, Reports(id, update, now, written), isIPv4);
    SparedStaysStored(published, id, events, isIPv4);
    var s' := AllHappened(published, events, isIPv4).stores;
    hide Happened, AllHappened, WritesFile, Spares;
    if k :| 0 <= k < |events| && WritesFile(AllHappened(published, events[..k], isIPv4), events[k], isIPv4) {
      OneWriteIsEnough(published, id, events, k, isIPv4);
    }
    if OnFile(s', id) {
      SameAfterRestart(text, m, w, id, e, at, logs, now, written, isIPv4, s', configProtocol, startedAt, e', at');
    }
  }

  lemma SameAfterRestart(text: IPText, m: P.MapState, w: World, id: string, e: P.MappingEvent, at: Time,
                         logs: seq<LogEntry>, now: Time, written: bool, isIPv4: string -> bool, s': Stores,
                         configProtocol: string, startedAt: Time, e': P.MappingEvent, at': Time)
    requires id != "" && text.Correct() && ValidEvent(e) && ValidEvent(e') && P.SameFiveTuple(e, e') && at != 0
    requires var r := P.PublishStep(m, e, at).1;
             var published := Happened(w, Reports(id, PublishUpdate(text, e, r, logs, now), now, written), isIPv4);
             EntryOf(s'.db.runtime, id) == EntryOf(published.stores.db.runtime, id) && OnFile(s', id)
    ensures var r := P.PublishStep(m, e, at).1;
            var r' := P.PublishStep(Restarted(text, s'.disk.runtime, id, configProtocol, startedAt), e', at').1;
            var survives := e.publicPort != 0 && (e.privatePort != 0 || StatusOf(w.core, id, now).privatePort == 0);
            && (!r'.changed <==> survives)
            && (survives ==> r'.stableSince == r.stableSince && r'.updatedAt == r.updatedAt)
  {
    if e.publicPort == 0 {
      RestartedPortIsNotZero(text, s'.disk.runtime, id, configProtocol, startedAt);
      hide Restarted, Happened;
    } else {
      var r := P.PublishStep(m, e, at).1;
      ReportPersists(w, id, text, e, r, logs, now, written, isIPv4);
      StoredMappingReturns(text, s'.disk.runtime, id, configProtocol, startedAt, e, e', at');
      hide Happened;
    }
  }

  /** A stored mapping seeds a runner for which the same public mapping is no
      change. */
  lemma StoredMappingReturns(text: IPText, runtime: map<string, PersistedStatus>, id: string, configProtocol: string,
                             startedAt: Time, e: P.MappingEvent, e': P.MappingEvent, at': Time)
    requires text.Correct() && ValidEvent(e) && ValidEvent(e') && P.SameFiveTuple(e, e')
    requires id in runtime
    requires var st := runtime[id];
             && st.publicAddress == text.format(e.publicIP) && st.publicPort == e.publicPort != 0
             && st.privateAddress == text.format(e.privateIP) && st.protocol == e.protocol
             && st.publicStableSince != 0 && st.publicUpdatedAt != 0
    ensures var r' := P.PublishStep(Restarted(text, runtime, id, configProtocol, startedAt), e', at').1;
            && (!r'.changed <==> runtime[id].privatePort == e.privatePort)
            && r'.stableSince == runtime[id].publicStableSince && r'.updatedAt == runtime[id].publicUpdatedAt
  {
  }
}
