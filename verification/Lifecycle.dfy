/** The lifecycle of runners. Callers of Start, Stop and ReplaceConfig, runners
    and the goroutines that clean up after them run concurrently; each section
    under the manager's lock is one step. */
module Lifecycle {
  import opened Persistence
  import opened Status
  import opened Store
  import opened Wrappers

  type Runner = nat // the identity of a runner, that is, its pointer

  // ----- Sections under the lock

  /** What the lock guards. */
  datatype Core = Core(runners: map<string, Runner>, status: map<string, RuntimeStatus>)

  function StatusOf(c: Core, id: string, now: Time): RuntimeStatus {
    if id in c.status then c.status[id] else DefaultStatus(now)
  }

  function WithState(c: Core, id: string, state: RunState, message: string, now: Time): Core {
    c.(status := c.status[id := SetState(StatusOf(c, id, now), state, message, None, now)])
  }

  /** Start: a new runner is entered unless there is one. */
  function StartSection(c: Core, id: string, newRunner: Runner, now: Time): Core {
    if id in c.runners then c else WithState(c.(runners := c.runners[id := newRunner]), id, Starting, "", now)
  }

  /** The status a new runner is seeded with. */
  function SeedFor(c: Core, runtime: map<string, PersistedStatus>, id: string, now: Time): RuntimeStatus {
    var seed := StatusOf(c, id, now);
    if seed.publicAddress == "" && Load(runtime, id).Some? then Load(runtime, id).value else seed
  }

  /** The goroutine of Start, after its runner has returned. */
  function CleanupSection(c: Core, id: string, runner: Runner, now: Time): Core {
    if id in c.runners && c.runners[id] == runner then
      var dropped := c.(runners := c.runners - {id});
      if StatusOf(c, id, now).state != Errored then WithState(dropped, id, Stopped, "", now) else dropped
    else c
  }

  function StopSection(c: Core, id: string, now: Time): Core {
    if id in c.runners then WithState(c, id, Stopping, "stopping instance", now)
    else WithState(c, id, Stopped, if StatusOf(c, id, now).state == Stopped then "" else "instance stopped", now)
  }

  /** The first section of ReplaceConfig for a running instance. */
  function ReplaceSection(c: Core, id: string, now: Time): Core {
    if id in c.runners then WithState(c, id, Stopping, "restarting instance", now) else c
  }

  /** Its second section, after the old runner is done. */
  function DropSection(c: Core, id: string, runner: Runner): Core {
    if id in c.runners && c.runners[id] == runner then c.(runners := c.runners - {id}) else c
  }

  function ClearSection(c: Core, id: string, now: Time): Core {
    c.(status := c.status[id := ClearPublic(StatusOf(c, id, now))])
  }

  function ReportSection(c: Core, id: string, update: RuntimeStatus, now: Time): Core {
    c.(status := c.status[id := Merge(StatusOf(c, id, now), update, now)])
  }

  /** What each section does to the table of runners. */
  lemma SectionTables(c: Core, id: string, r: Runner, now: Time)
    ensures StartSection(c, id, r, now).runners == if id in c.runners then c.runners else c.runners[id := r]
    ensures CleanupSection(c, id, r, now).runners == DropSection(c, id, r).runners
    ensures DropSection(c, id, r).runners ==
            if id in c.runners && c.runners[id] == r then c.runners - {id} else c.runners
    ensures StopSection(c, id, now).runners == c.runners
    ensures ReplaceSection(c, id, now).runners == c.runners
    ensures ClearSection(c, id, now).runners == c.runners
    ensures forall update :: ReportSection(c, id, update, now).runners == c.runners
  {
  }

  /** What every section keeps. */
  predicate ValidCore(c: Core) {
    forall id :: id in c.status ==> ValidStatus(c.status[id])
  }

  lemma SectionsKeepValid(c: Core, id: string, r: Runner, now: Time)
    requires ValidCore(c)
    ensures ValidCore(StartSection(c, id, r, now)) && ValidCore(CleanupSection(c, id, r, now))
    ensures ValidCore(DropSection(c, id, r)) && ValidCore(ClearSection(c, id, now))
    ensures ValidCore(StopSection(c, id, now)) && ValidCore(ReplaceSection(c, id, now))
  {
    hide SetState, ClearPublic, DefaultStatus, ValidStatus;
    var st := StatusOf(c, id, now);
    DefaultIsValid(now);
    assert ValidStatus(ClearPublic(st)) by {
      ApplyKeepsValid(st, Clear);
    }
    forall state, message | state in {Starting, Stopped, Stopping}
      ensures ValidStatus(SetState(st, state, message, None, now))
    {
      ApplyKeepsValid(st, Set(state, message, None, now));
    }
  }

  lemma ReportKeepsValid(c: Core, id: string, update: RuntimeStatus, now: Time)
    requires ValidCore(c)
    ensures ValidCore(ReportSection(c, id, update, now))
  {
    hide Merge, DefaultStatus, ValidStatus;
    DefaultIsValid(now);
    ApplyKeepsValid(StatusOf(c, id, now), Status.Report(update, now));
  }

  function Found(c: Core, id: string): Option<Runner> {
    if id in c.runners then Some(c.runners[id]) else None
  }

  // ----- What the sections show

  /** A report reaches the store if it has a public address, a public port, or a time
      of their update; no other report does. */
  lemma WhichReportsPersist(update: RuntimeStatus)
    ensures update.publicAddress != "" ==> Persists(update)
    ensures update.publicPort != 0 ==> Persists(update)
    ensures update.publicUpdatedAt != 0 ==> Persists(update)
    ensures update.publicAddress == "" && update.publicPort == 0 && update.publicUpdatedAt == 0 ==> !Persists(update)
  {
  }

  /** The state, error and last log entry of an instance after each section: the start
      and the cleanup of a runner, and a clear; */
  lemma SectionsShow(c: Core, id: string, r: Runner, now: Time)
    ensures var was := StatusOf(c, id, now);
            var entered := id in c.runners;
            && (!entered ==>
                  var after := StatusOf(StartSection(c, id, r, now), id, now);
                  after.state == Starting && after.lastError == was.lastError && after.logs == Last(was.logs, 100))
            && (entered && c.runners[id] == r ==>
                  var after := StatusOf(CleanupSection(c, id, r, now), id, now);
                  after.state == (if was.state == Errored then Errored else Stopped) &&
                  after.lastError == was.lastError)
            && (var after := StatusOf(ClearSection(c, id, now), id, now);
                after.state == was.state && after.lastError == was.lastError && after.logs == was.logs)
  {
    assert StatusOf(c, id, now).logs + [] == StatusOf(c, id, now).logs;
    hide Last;
  }

  /** and Stop and the first section of ReplaceConfig. */
  lemma StopsShow(c: Core, id: string, now: Time)
    ensures var was := StatusOf(c, id, now);
            var entered := id in c.runners;
            && (var after := StatusOf(StopSection(c, id, now), id, now);
                after.state == (if entered then Stopping else Stopped) && after.lastChange == now &&
                (entered ==> after.lastError == "" && LastLog(after) == Some("stopping instance")) &&
                (!entered && was.state != Stopped ==>
                   after.lastError == "" && LastLog(after) == Some("instance stopped")) &&
                (!entered && was.state == Stopped ==>
                   after.lastError == was.lastError && after.logs == Last(was.logs, 100)))
            && (entered ==>
                  var after := StatusOf(ReplaceSection(c, id, now), id, now);
                  after.state == Stopping && after.lastError == "" && LastLog(after) == Some("restarting instance"))
  {
  }

  function LastLog(s: RuntimeStatus): Option<string> {
    if s.logs == [] then None else Some(s.logs[|s.logs| - 1].message)
  }

  /** No section touches another instance. */
  lemma OthersStay(c: Core, id: string, r: Runner, now: Time, update: RuntimeStatus, other: string)
    requires other != id
    ensures forall after ::
              after in {StartSection(c, id, r, now), CleanupSection(c, id, r, now), StopSection(c, id, now),
                        ReplaceSection(c, id, now), DropSection(c, id, r), ClearSection(c, id, now),
                        ReportSection(c, id, update, now)} ==>
                && StatusOf(after, other, now) == StatusOf(c, other, now)
                && Found(after, other) == Found(c, other)
  {
    hide SetState, Merge, ClearPublic;
  }

  /** An error that a runner reports is shown, and a cleanup leaves it. */
  lemma ErrorIsShown(c: Core, id: string, update: RuntimeStatus, r: Runner, now: Time, later: Time)
    requires update.state == Errored && update.lastError != ""
    ensures var shown := ReportSection(c, id, update, now);
            var after := CleanupSection(shown, id, r, later);
            && StatusOf(shown, id, now).state == Errored && StatusOf(shown, id, now).lastError == update.lastError
            && StatusOf(after, id, later).state == Errored && StatusOf(after, id, later).lastError == update.lastError
  {
    StatusShowsLatest(StatusOf(c, id, now), [Status.Report(update, now)]);
  }

  /** A report that concerns the public mapping is persisted. */
  predicate Persists(update: RuntimeStatus) {
    update.publicAddress != "" || update.publicPort != 0 || update.publicUpdatedAt != 0
  }

  class Manager {
    const store: ConfigStore
    var runners: map<string, Runner>
    var status: map<string, RuntimeStatus>

    ghost function State(): Core
      reads this
    {
      Core(runners, status)
    }

    /** No instance that is stopping or stopped shows a connection, and no log has
        more than 100 entries. */
    ghost predicate Valid()
      reads this
    {
      ValidCore(State())
    }

    constructor (store: ConfigStore)
      ensures State() == Core(map[], map[]) && this.store == store && Valid()
    {
      this.store, runners, status := store, map[], map[];
    }

    method StatusForLocked(id: string, now: Time) returns (st: RuntimeStatus)
      ensures st == StatusOf(State(), id, now)
    {
      if id in status {
        return status[id];
      }
      return DefaultStatus(now);
    }

    method SetStatusLocked(id: string, state: RunState, message: string, error: Option<string>, now: Time)
      modifies this`status
      ensures status == old(status)[id := SetState(StatusOf(old(State()), id, now), state, message, error, now)]
    {
      var st := StatusForLocked(id, now);
      st := st.(state := state, lastChange := now);
      if StateClearsKeepAlive(state) {
        st := st.(keepAlive := NO_KEEP_ALIVE);
      }
      if error.Some? {
        st := st.(lastError := error.value, logs := st.logs + [LogEntry(now, "error", error.value)]);
      } else if message != "" {
        st := st.(lastError := "", logs := st.logs + [LogEntry(now, "info", message)]);
      } else {
        assert st.logs + [] == st.logs;
      }
      if |st.logs| > MAX_LOGS {
        st := st.(logs := st.logs[|st.logs| - MAX_LOGS..]);
      }
      status := status[id := st];
    }

    /** The locked section of Start, with the seed it hands to a new runner. */
    method StartLocked(id: string, newRunner: Runner, now: Time) returns (seed: Option<RuntimeStatus>)
      requires Valid()
      modifies this
      ensures State() == StartSection(old(State()), id, newRunner, now)
      ensures seed == if id in old(runners) then None else Some(SeedFor(old(State()), store.db.runtime, id, now))
      ensures Valid()
    {
      SectionsKeepValid(State(), id, newRunner, now);
      hide ValidCore;
      if id in runners {
        return None;
      }
      var st := StatusForLocked(id, now);
      if st.publicAddress == "" {
        var persisted := store.LoadRuntimeStatus(id);
        if persisted.Some? {
          st := persisted.value;
        }
      }
      runners := runners[id := newRunner];
      SetStatusLocked(id, Starting, "", None, now);
      return Some(st);
    }

    method CleanupLocked(id: string, runner: Runner, now: Time)
      requires Valid()
      modifies this
      ensures State() == CleanupSection(old(State()), id, runner, now)
      ensures Valid()
    {
      SectionsKeepValid(State(), id, runner, now);
      hide ValidCore;
      if id in runners && runners[id] == runner {
        runners := runners - {id};
        var current := StatusForLocked(id, now);
        if current.state != Errored {
          SetStatusLocked(id, Stopped, "", None, now);
        }
      }
    }

    method StopLocked(id: string, now: Time) returns (runner: Option<Runner>)
      requires Valid()
      modifies this
      ensures State() == StopSection(old(State()), id, now) && runner == Found(old(State()), id)
      ensures Valid()
    {
      SectionsKeepValid(State(), id, 0, now);
      hide ValidCore;
      if id !in runners {
        var current := StatusForLocked(id, now);
        var message := "instance stopped";
        if current.state == Stopped {
          message := "";
        }
        SetStatusLocked(id, Stopped, message, None, now);
        return None;
      }
      SetStatusLocked(id, Stopping, "stopping instance", None, now);
      return Some(runners[id]);
    }

    method ReplaceLocked(id: string, now: Time) returns (runner: Option<Runner>)
      requires Valid()
      modifies this
      ensures State() == ReplaceSection(old(State()), id, now) && runner == Found(old(State()), id)
      ensures Valid()
    {
      SectionsKeepValid(State(), id, 0, now);
      hide ValidCore;
      if id !in runners {
        return None;
      }
      SetStatusLocked(id, Stopping, "restarting instance", None, now);
      return Some(runners[id]);
    }

    method DropLocked(id: string, runner: Runner)
      requires Valid()
      modifies this
      ensures State() == DropSection(old(State()), id, runner)
      ensures Valid()
    {
      SectionsKeepValid(State(), id, runner, 0);
      hide ValidCore;
      if id in runners && runners[id] == runner {
        runners := runners - {id};
      }
    }

    /** The locked section of clearRuntime; ClearRuntimeStatus of the store follows
        it outside the lock. */
    method ClearLocked(id: string, now: Time)
      requires Valid()
      modifies this`status
      ensures State() == ClearSection(old(State()), id, now)
      ensures Valid()
    {
      SectionsKeepValid(State(), id, 0, now);
      hide ValidCore;
      var st := StatusForLocked(id, now);
      st := st.(publicAddress := "", publicPort := 0, publicStableSince := 0, publicUpdatedAt := 0);
      st := st.(privateAddress := "", privatePort := 0, protocol := "", portCheck := NO_PORT_CHECK);
      status := status[id := st];
    }

    /** report. Whether the store could write its file is ignored. */
    method Report(id: string, update: RuntimeStatus, now: Time, written: bool)
      requires Valid()
      modifies this`status, store`db, store`admin, store.file
      ensures State() == ReportSection(old(State()), id, update, now)
      ensures store.State() ==
              if Persists(update) then Put(old(store.State()), Save(old(store.db.runtime), id, status[id]), written)
              else old(store.State())
      ensures Valid()
    {
      ReportKeepsValid(State(), id, update, now);
      hide ValidCore, Merge, Save;
      var current := StatusForLocked(id, now);
      current := MergeReport(current, update, now);
      status := status[id := current];
      if update.publicAddress != "" || update.publicPort != 0 || update.publicUpdatedAt != 0 {
        var ok := store.SaveRuntimeStatus(id, current, written);
      }
    }

    /** The fields that report takes over, part by part. */
    method MergeReport(st: RuntimeStatus, update: RuntimeStatus, now: Time) returns (current: RuntimeStatus)
      ensures current == Merge(st, update, now)
    {
      hide SameLink, Last, ReportClearsKeepAlive;
      current := MergeLifecycle(st, update);
      current := MergeAddresses(current, update);
      current := MergeLink(current, update);
      current := MergeRest(current, update, now);
    }

    /** The third part: the keep-alive connection. */
    method MergeLink(st: RuntimeStatus, update: RuntimeStatus) returns (current: RuntimeStatus)
      ensures current == st.(keepAlive := MergeKeepAlive(st, update.keepAlive))
    {
      current := st;
      if update.keepAlive.state != NoLink && !StateBlocksKeepAlive(current.state) {
        var next := update.keepAlive;
        if next.state == Connected && current.keepAlive.state == Connected && SameLink(next, current.keepAlive) &&
           (current.startedAt.None? || current.keepAlive.connectedAt >= current.startedAt.value) &&
           current.keepAlive.connectedAt != 0
        {
          next := next.(connectedAt := current.keepAlive.connectedAt);
        }
        current := current.(keepAlive := next);
      }
    }

    /** The last part: port check, log and time of change. */
    method MergeRest(st: RuntimeStatus, update: RuntimeStatus, now: Time) returns (current: RuntimeStatus)
      ensures current == st.(
        portCheck := if update.portCheck.state != "" then update.portCheck else st.portCheck,
        logs := if update.logs != [] then Last(st.logs + update.logs, MAX_LOGS) else st.logs,
        lastChange := if st.lastChange == 0 then now else st.lastChange)
    {
      current := st;
      if update.portCheck.state != "" {
        current := current.(portCheck := update.portCheck);
      }
      if |update.logs| > 0 {
        current := current.(logs := current.logs + update.logs);
        if |current.logs| > MAX_LOGS {
          current := current.(logs := current.logs[|current.logs| - MAX_LOGS..]);
        }
      }
      if current.lastChange == 0 {
        current := current.(lastChange := now);
      }
    }

    /** The first part of report: state, start time and time of change. */
    method MergeLifecycle(st: RuntimeStatus, update: RuntimeStatus) returns (current: RuntimeStatus)
      ensures current == st.(
        state := if update.state == NoState then st.state else update.state,
        keepAlive := if update.state != NoState && ReportClearsKeepAlive(update) then NO_KEEP_ALIVE else st.keepAlive,
        lastError :=
          if update.state != NoState && update.state != Errored && update.lastError == "" then "" else st.lastError,
        startedAt := if update.startedAt.Some? then update.startedAt else st.startedAt,
        lastChange := if update.lastChange != 0 then update.lastChange else st.lastChange)
    {
      current := st;
      if update.state != NoState {
        current := current.(state := update.state);
        if ReportClearsKeepAlive(update) {
          current := current.(keepAlive := NO_KEEP_ALIVE);
        }
        if update.state != Errored && update.lastError == "" {
          current := current.(lastError := "");
        }
      }
      if update.startedAt.Some? {
        current := current.(startedAt := update.startedAt);
      }
      if update.lastChange != 0 {
        current := current.(lastChange := update.lastChange);
      }
    }

    /** The second part: the mapping, field by field. */
    method MergeAddresses(st: RuntimeStatus, update: RuntimeStatus) returns (current: RuntimeStatus)
      ensures current == st.(
        publicAddress := if update.publicAddress != "" then update.publicAddress else st.publicAddress,
        publicPort := if update.publicPort != 0 then update.publicPort else st.publicPort,
        publicStableSince := if update.publicStableSince != 0 then update.publicStableSince else st.publicStableSince,
        publicUpdatedAt := if update.publicUpdatedAt != 0 then update.publicUpdatedAt else st.publicUpdatedAt,
        privateAddress := if update.privateAddress != "" then update.privateAddress else st.privateAddress,
        privatePort := if update.privatePort != 0 then update.privatePort else st.privatePort,
        protocol := if update.protocol != "" then update.protocol else st.protocol,
        lastError := if update.lastError != "" then update.lastError else st.lastError)
    {
      current := st;
      if update.publicAddress != "" {
        current := current.(publicAddress := update.publicAddress);
      }
      if update.publicPort != 0 {
        current := current.(publicPort := update.publicPort);
      }
      if update.publicStableSince != 0 {
        current := current.(publicStableSince := update.publicStableSince);
      }
      if update.publicUpdatedAt != 0 {
        current := current.(publicUpdatedAt := update.publicUpdatedAt);
      }
      if update.privateAddress != "" {
        current := current.(privateAddress := update.privateAddress);
      }
      if update.privatePort != 0 {
        current := current.(privatePort := update.privatePort);
      }
      if update.protocol != "" {
        current := current.(protocol := update.protocol);
      }
      if update.lastError != "" {
        current := current.(lastError := update.lastError);
      }
    }
  }
}
