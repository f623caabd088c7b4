/** The runtime status of one instance: how the manager merges reports into it,
    and what holds after any sequence of updates. */
module Status {
  import opened Wrappers

  datatype RunState = NoState | Stopped | Starting | Running | Stopping | Errored

  datatype LinkState = NoLink | Unknown | Connected | Reconnecting | Disconnected

  /** Without ConnectedSeconds, which is computed when a status is shown. */
  datatype KeepAlive = KeepAlive(
    state: LinkState, protocol: string, address: string, port: int,
    latencyMs: int, connectedAt: Time, lastSeenAt: Time, message: string)

  const NO_KEEP_ALIVE := KeepAlive(NoLink, "", "", 0, 0, 0, 0, "")

  datatype PortCheck = PortCheck(protocol: string, state: string, latencyMs: int, checkedAt: Time, message: string)

  const NO_PORT_CHECK := PortCheck("", "", 0, 0, "")

  datatype LogEntry = LogEntry(at: Time, level: string, message: string)

  const MAX_LOGS := 100

  datatype RuntimeStatus = RuntimeStatus(
    state: RunState, startedAt: Option<Time>, lastChange: Time,
    publicAddress: string, publicPort: int, publicStableSince: Time, publicUpdatedAt: Time,
    privateAddress: string, privatePort: int, protocol: string,
    lastError: string, keepAlive: KeepAlive, portCheck: PortCheck, logs: seq<LogEntry>)

  /** An update that leaves everything as it is. */
  const NO_UPDATE :=
    RuntimeStatus(NoState, None, 0, "", 0, 0, 0, "", 0, "", "", NO_KEEP_ALIVE, NO_PORT_CHECK, [])

  /** statusForLocked, for an instance without a status. */
  function DefaultStatus(now: Time): RuntimeStatus {
    NO_UPDATE.(state := Stopped, lastChange := now)
  }

  /** It is stopped and tells of nothing else. */
  lemma DefaultIsBlank(now: Time)
    ensures DefaultStatus(now) ==
            RuntimeStatus(Stopped, None, now, "", 0, 0, 0, "", 0, "", "",
                          KeepAlive(NoLink, "", "", 0, 0, 0, 0, ""), PortCheck("", "", 0, 0, ""), [])
  {
  }

  // ----- Single updates

  function Last<T>(s: seq<T>, n: nat): seq<T> {
    if |s| > n then s[|s| - n..] else s
  }

  /** stateClearsKeepAlive */
  predicate StateClearsKeepAlive(state: RunState) {
    state == Starting || state == Stopping || state == Stopped
  }

  /** stateBlocksKeepAlive */
  predicate StateBlocksKeepAlive(state: RunState) {
    state == Stopping || state == Stopped
  }

  /** reportClearsKeepAlive */
  predicate ReportClearsKeepAlive(update: RuntimeStatus) {
    update.state == Stopping || update.state == Stopped || (update.state == Starting && update.startedAt.Some?)
  }

  predicate SameLink(a: KeepAlive, b: KeepAlive) {
    a.protocol == b.protocol && a.address == b.address && a.port == b.port
  }

  /** The keep-alive record after a report, given the status with the new state
      and start time. */
  function MergeKeepAlive(current: RuntimeStatus, next: KeepAlive): KeepAlive {
    if next.state == NoLink || StateBlocksKeepAlive(current.state) then current.keepAlive
    else if && next.state == Connected && current.keepAlive.state == Connected
            && SameLink(next, current.keepAlive)
            && (current.startedAt.None? || current.keepAlive.connectedAt >= current.startedAt.value)
            && current.keepAlive.connectedAt != 0
    then next.(connectedAt := current.keepAlive.connectedAt)
    else next
  }

  /** report, on the status of one instance. */
  function Merge(current: RuntimeStatus, update: RuntimeStatus, now: Time): RuntimeStatus {
    var s := if update.state == NoState then current else
               current.(state := update.state,
                        keepAlive := if ReportClearsKeepAlive(update) then NO_KEEP_ALIVE else current.keepAlive,
                        lastError :=
                          if update.state != Errored && update.lastError == "" then "" else current.lastError);
    var t := s.(startedAt := if update.startedAt.Some? then update.startedAt else s.startedAt);
    var change := if update.lastChange != 0 then update.lastChange else t.lastChange;
    RuntimeStatus(
      t.state, t.startedAt, if change == 0 then now else change,
      if update.publicAddress != "" then update.publicAddress else t.publicAddress,
      if update.publicPort != 0 then update.publicPort else t.publicPort,
      if update.publicStableSince != 0 then update.publicStableSince else t.publicStableSince,
      if update.publicUpdatedAt != 0 then update.publicUpdatedAt else t.publicUpdatedAt,
      if update.privateAddress != "" then update.privateAddress else t.privateAddress,
      if update.privatePort != 0 then update.privatePort else t.privatePort,
      if update.protocol != "" then update.protocol else t.protocol,
      if update.lastError != "" then update.lastError else t.lastError,
      MergeKeepAlive(t, update.keepAlive),
      if update.portCheck.state != "" then update.portCheck else t.portCheck,
      if update.logs != [] then Last(t.logs + update.logs, MAX_LOGS) else t.logs)
  }

  /** setStatusLocked, on the status of one instance. */
  function SetState(current: RuntimeStatus, state: RunState, message: string, error: Option<string>, now: Time)
    : RuntimeStatus
  {
    var s := current.(state := state, lastChange := now,
                      keepAlive := if StateClearsKeepAlive(state) then NO_KEEP_ALIVE else current.keepAlive);
    s.(lastError := if error.Some? then error.value else if message != "" then "" else s.lastError,
       logs := Last(s.logs + StateLogs(message, error, now), MAX_LOGS))
  }

  function StateLogs(message: string, error: Option<string>, now: Time): seq<LogEntry> {
    if error.Some? then [LogEntry(now, "error", error.value)]
    else if message != "" then [LogEntry(now, "info", message)]
    else []
  }

  /** clearRuntime, on the status of one instance. */
  function ClearPublic(current: RuntimeStatus): RuntimeStatus {
    current.(publicAddress := "", publicPort := 0, publicStableSince := 0, publicUpdatedAt := 0,
             privateAddress := "", privatePort := 0, protocol := "", portCheck := NO_PORT_CHECK)
  }

  // ----- Sequences of updates

  datatype Update =
    | Report(update: RuntimeStatus, now: Time)
    | Set(state: RunState, message: string, error: Option<string>, now: Time)
    | Clear

  function Apply(s: RuntimeStatus, u: Update): RuntimeStatus {
    match u
    case Report(update, now) => Merge(s, update, now)
    case Set(state, message, error, now) => SetState(s, state, message, error, now)
    case Clear => ClearPublic(s)
  }

  function ApplyAll(s: RuntimeStatus, updates: seq<Update>): RuntimeStatus {
    if updates == [] then s
    else Apply(ApplyAll(s, updates[..|updates| - 1]), updates[|updates| - 1])
  }

  /** A stopping or stopped instance shows no keep-alive connection. */
  predicate QuietWhenStopped(s: RuntimeStatus) {
    StateBlocksKeepAlive(s.state) ==> s.keepAlive == NO_KEEP_ALIVE
  }

  /** What every section keeps of a status: it is quiet when stopped, and its log
      is bounded. */
  predicate ValidStatus(s: RuntimeStatus) {
    QuietWhenStopped(s) && |s.logs| <= 100
  }

  lemma ApplyKeepsValid(s: RuntimeStatus, u: Update)
    requires ValidStatus(s)
    ensures ValidStatus(Apply(s, u))
  {
  }

  lemma {:induction false} ValidAlways(updates: seq<Update>, now: Time)
    ensures ValidStatus(ApplyAll(DefaultStatus(now), updates))
  {
    hide Apply, ValidStatus;
    if updates == [] {
      DefaultIsValid(now);
    } else {
      ValidAlways(updates[..|updates| - 1], now);
      ApplyKeepsValid(ApplyAll(DefaultStatus(now), updates[..|updates| - 1]), updates[|updates| - 1]);
    }
  }

  lemma DefaultIsValid(now: Time)
    ensures ValidStatus(DefaultStatus(now))
  {
  }

  /** The log entries an update appends. */
  function Appended(u: Update): seq<LogEntry> {
    match u
    case Report(update, _) => update.logs
    case Set(_, message, error, now) => StateLogs(message, error, now)
    case Clear => []
  }

  function AllAppended(updates: seq<Update>): seq<LogEntry> {
    if updates == [] then []
    else AllAppended(updates[..|updates| - 1]) + Appended(updates[|updates| - 1])
  }

  lemma LastOfLast<T>(a: seq<T>, b: seq<T>, n: nat)
    ensures Last(Last(a, n) + b, n) == Last(a + b, n)
  {
  }

  /** The log is exactly the last min(100, total) entries ever appended. */
  lemma {:induction false} LogsAreTheLatest(updates: seq<Update>, now: Time)
    ensures ApplyAll(DefaultStatus(now), updates).logs == Last(AllAppended(updates), 100)
  {
    if updates == [] {
    } else {
      var before, u := updates[..|updates| - 1], updates[|updates| - 1];
      LogsAreTheLatest(before, now);
      LastOfLast(AllAppended(before), Appended(u), MAX_LOGS);
      assert AllAppended(before) + [] == AllAppended(before);
    }
  }

  // ----- What a status shows

  /** The last of what the updates say about something, or what was so before. */
  function Latest<T>(says: Update -> Option<T>, updates: seq<Update>, before: T): T {
    if updates == [] then before
    else
      match says(updates[|updates| - 1])
      case Some(value) => value
      case None => Latest(says, updates[..|updates| - 1], before)
  }

  /** What one update says: None when it leaves the matter alone. */
  function SaysState(u: Update): Option<RunState> {
    match u
    case Report(update, _) => if update.state == NoState then None else Some(update.state)
    case Set(state, _, _, _) => Some(state)
    case Clear => None
  }

  /** An error message stands until another one, a report of a state other than
      "error", or a message. */
  function SaysError(u: Update): Option<string> {
    match u
    case Report(update, _) =>
      if update.lastError != "" then Some(update.lastError)
      else if update.state in {Stopped, Starting, Running, Stopping} then Some("")
      else None
    case Set(_, message, error, _) =>
      if error.Some? then error else if message != "" then Some("") else None
    case Clear => None
  }

  function SaysStart(u: Update): Option<Option<Time>> {
    if u.Report? && u.update.startedAt.Some? then Some(u.update.startedAt) else None
  }

  function SaysChange(u: Update): Option<Time> {
    match u
    case Report(update, _) => if update.lastChange != 0 then Some(update.lastChange) else None
    case Set(_, _, _, now) => Some(now)
    case Clear => None
  }

  function SaysPortCheck(u: Update): Option<PortCheck> {
    match u
    case Report(update, _) => if update.portCheck.state != "" then Some(update.portCheck) else None
    case Set(_, _, _, _) => None
    case Clear => Some(PortCheck("", "", 0, 0, ""))
  }

  /** A field of the mapping: a report that has it gives it, and a clear empties it. */
  function SaysField<T(==)>(u: Update, field: RuntimeStatus -> T, empty: T): Option<T> {
    match u
    case Report(update, _) => if field(update) != empty then Some(field(update)) else None
    case Set(_, _, _, _) => None
    case Clear => Some(empty)
  }

  const SAYS_PUBLIC_ADDRESS := (u: Update) => SaysField(u, (s: RuntimeStatus) => s.publicAddress, "")
  const SAYS_PUBLIC_PORT := (u: Update) => SaysField(u, (s: RuntimeStatus) => s.publicPort, 0)
  const SAYS_STABLE_SINCE := (u: Update) => SaysField(u, (s: RuntimeStatus) => s.publicStableSince, 0)
  const SAYS_UPDATED_AT := (u: Update) => SaysField(u, (s: RuntimeStatus) => s.publicUpdatedAt, 0)
  const SAYS_PRIVATE_ADDRESS := (u: Update) => SaysField(u, (s: RuntimeStatus) => s.privateAddress, "")
  const SAYS_PRIVATE_PORT := (u: Update) => SaysField(u, (s: RuntimeStatus) => s.privatePort, 0)
  const SAYS_PROTOCOL := (u: Update) => SaysField(u, (s: RuntimeStatus) => s.protocol, "")

  /** After any sequence of updates, state, error, start, port check and each part
      of the mapping are those of the last update that says something about them. */
  ghost predicate ShowsLatest(s: RuntimeStatus, updates: seq<Update>) {
    var r := ApplyAll(s, updates);
    && r.state == Latest(SaysState, updates, s.state)
    && r.lastError == Latest(SaysError, updates, s.lastError)
    && r.startedAt == Latest(SaysStart, updates, s.startedAt)
    && r.portCheck == Latest(SaysPortCheck, updates, s.portCheck)
    && r.publicAddress == Latest(SAYS_PUBLIC_ADDRESS, updates, s.publicAddress)
    && r.publicPort == Latest(SAYS_PUBLIC_PORT, updates, s.publicPort)
    && r.publicStableSince == Latest(SAYS_STABLE_SINCE, updates, s.publicStableSince)
    && r.publicUpdatedAt == Latest(SAYS_UPDATED_AT, updates, s.publicUpdatedAt)
    && r.privateAddress == Latest(SAYS_PRIVATE_ADDRESS, updates, s.privateAddress)
    && r.privatePort == Latest(SAYS_PRIVATE_PORT, updates, s.privatePort)
    && r.protocol == Latest(SAYS_PROTOCOL, updates, s.protocol)
  }

  lemma {:induction false} StatusShowsLatest(s: RuntimeStatus, updates: seq<Update>)
    ensures ShowsLatest(s, updates)
  {
    hide Merge, SetState, ClearPublic;
    if updates == [] {
    } else {
      StatusShowsLatest(s, updates[..|updates| - 1]);
      UpdateShows(ApplyAll(s, updates[..|updates| - 1]), updates[|updates| - 1]);
    }
  }

  /** One update gives what it says and leaves everything else alone. */
  lemma UpdateShows(s: RuntimeStatus, u: Update)
    ensures var r := Apply(s, u);
            && r.state == OrBefore(SaysState(u), s.state)
            && r.lastError == OrBefore(SaysError(u), s.lastError)
            && r.startedAt == OrBefore(SaysStart(u), s.startedAt)
            && r.portCheck == OrBefore(SaysPortCheck(u), s.portCheck)
            && r.publicAddress == OrBefore(SAYS_PUBLIC_ADDRESS(u), s.publicAddress)
            && r.publicPort == OrBefore(SAYS_PUBLIC_PORT(u), s.publicPort)
            && r.publicStableSince == OrBefore(SAYS_STABLE_SINCE(u), s.publicStableSince)
            && r.publicUpdatedAt == OrBefore(SAYS_UPDATED_AT(u), s.publicUpdatedAt)
            && r.privateAddress == OrBefore(SAYS_PRIVATE_ADDRESS(u), s.privateAddress)
            && r.privatePort == OrBefore(SAYS_PRIVATE_PORT(u), s.privatePort)
            && r.protocol == OrBefore(SAYS_PROTOCOL(u), s.protocol)
  {
  }

  function OrBefore<T>(said: Option<T>, before: T): T {
    if said.Some? then said.value else before
  }

  /** All times of the clock are set. */
  ghost predicate Dated(updates: seq<Update>) {
    forall k :: 0 <= k < |updates| && !updates[k].Clear? ==> updates[k].now != 0
  }

  /** So is the time of the last change, once there is one; a report alone never
      moves it without saying so. */
  lemma {:induction false} LastChangeIsLatest(s: RuntimeStatus, updates: seq<Update>)
    requires Dated(updates) && s.lastChange != 0
    ensures var change := ApplyAll(s, updates).lastChange;
            change == Latest(SaysChange, updates, s.lastChange) && change != 0
  {
    if updates == [] {
    } else {
      LastChangeIsLatest(s, updates[..|updates| - 1]);
    }
  }

  /** What one update says about the connection, in the state it leads to, apart
      from the time of connecting. */
  function SaysLink(u: Update, state: RunState): Option<KeepAlive> {
    match u
    case Report(update, _) =>
      if update.keepAlive.state != NoLink && state != Stopping && state != Stopped then
        Some(update.keepAlive.(connectedAt := 0))
      else if update.state in {Stopping, Stopped} || (update.state == Starting && update.startedAt.Some?) then
        Some(KeepAlive(NoLink, "", "", 0, 0, 0, 0, ""))
      else None
    case Set(to, _, _, _) =>
      if to in {Starting, Stopping, Stopped} then Some(KeepAlive(NoLink, "", "", 0, 0, 0, 0, "")) else None
    case Clear => None
  }

  function LatestLink(s: RuntimeStatus, updates: seq<Update>): KeepAlive {
    if updates == [] then s.keepAlive.(connectedAt := 0)
    else
      match SaysLink(updates[|updates| - 1], Latest(SaysState, updates, s.state))
      case Some(link) => link
      case None => LatestLink(s, updates[..|updates| - 1])
  }

  /** The connection shown is the last one reported while the instance was not
      stopping or stopped, unless it was cleared since. */
  lemma {:induction false} LinkIsLatest(s: RuntimeStatus, updates: seq<Update>)
    ensures ApplyAll(s, updates).keepAlive.(connectedAt := 0) == LatestLink(s, updates)
  {
    StatusShowsLatest(s, updates);
    if updates == [] {
    } else {
      LinkIsLatest(s, updates[..|updates| - 1]);
      UpdateShowsLink(ApplyAll(s, updates[..|updates| - 1]), updates[|updates| - 1]);
      hide Apply, SaysLink, Latest;
    }
  }

  lemma UpdateShowsLink(s: RuntimeStatus, u: Update)
    ensures var r := Apply(s, u);
            r.keepAlive.(connectedAt := 0) == OrBefore(SaysLink(u, r.state), s.keepAlive.(connectedAt := 0))
  {
  }

  // ----- How long a connection has lasted

  predicate ConnectedTo(s: RuntimeStatus, link: KeepAlive) {
    s.keepAlive.state == Connected && SameLink(s.keepAlive, link)
  }

  /** From update j on, up to n, the status shows an unbroken connection over one
      link, which it did not show before. */
  ghost predicate Streak(s: RuntimeStatus, updates: seq<Update>, j: nat, n: nat, link: KeepAlive) {
    && 0 < j <= n <= |updates|
    && !ConnectedTo(ApplyAll(s, updates[..j - 1]), link)
    && forall k :: j <= k <= n ==> ConnectedTo(ApplyAll(s, updates[..k]), link)
  }

  /** When a report that brings a connection keeps the time of the one shown: exactly
      if that one is up over the same protocol, address and port, has a time, and
      does not date from before the start of the run. */
  lemma WhenTheTimeIsKept(s: RuntimeStatus, update: RuntimeStatus, now: Time)
    requires update.keepAlive.state != NoLink
    ensures var r, shown, reported := Merge(s, update, now), s.keepAlive, update.keepAlive;
            var cleared := update.state in {Stopping, Stopped} || (update.state == Starting && update.startedAt.Some?);
            r.state !in {Stopping, Stopped} ==>
              r.keepAlive.connectedAt ==
              if && reported.state == Connected && shown.state == Connected && !cleared
                 && reported.protocol == shown.protocol && reported.address == shown.address
                 && reported.port == shown.port
                 && shown.connectedAt != 0 && (r.startedAt.None? || r.startedAt.value <= shown.connectedAt)
              then shown.connectedAt else reported.connectedAt
  {
    hide Last;
  }

  /** An update that clears the connection and reports one at the same time; the
      program emits none. */
  predicate ClearsAndReports(u: Update) {
    u.Report? && ReportClearsKeepAlive(u.update) && u.update.keepAlive.state != NoLink
  }

  /** An update that brings a connection up reports it. */
  lemma ConnectionIsReported(s: RuntimeStatus, u: Update, link: KeepAlive)
    requires !ConnectedTo(s, link) && ConnectedTo(Apply(s, u), link)
    ensures u.Report? && SameLink(u.update.keepAlive, link)
    ensures Apply(s, u).keepAlive.connectedAt == u.update.keepAlive.connectedAt
  {
  }

  /** An update that leaves a connection up leaves its time alone. */
  lemma ConnectionKeepsTime(s: RuntimeStatus, u: Update, link: KeepAlive)
    requires ConnectedTo(s, link) && ConnectedTo(Apply(s, u), link) && !ClearsAndReports(u)
    requires s.keepAlive.connectedAt != 0
    requires Apply(s, u).startedAt.None? || Apply(s, u).startedAt.value <= s.keepAlive.connectedAt
    ensures Apply(s, u).keepAlive.connectedAt == s.keepAlive.connectedAt
  {
  }

  /** ConnectedAt stays at the time the first report of the streak gave, as long
      as that time is not before the start of the run. */
  lemma {:induction false} ConnectedAtIsStreakStart(s: RuntimeStatus, updates: seq<Update>,
                                                    j: nat, n: nat, link: KeepAlive)
    requires Streak(s, updates, j, n, link)
    requires forall k :: j <= k < n ==> !ClearsAndReports(updates[k])
    requires var first := ApplyAll(s, updates[..j]).keepAlive.connectedAt;
             first != 0 && forall k :: j <= k <= n ==> ApplyAll(s, updates[..k]).startedAt.None? ||
                                                       ApplyAll(s, updates[..k]).startedAt.value <= first
    ensures updates[j - 1].Report? && SameLink(updates[j - 1].update.keepAlive, link)
    ensures ApplyAll(s, updates[..n]).keepAlive.connectedAt ==
            ApplyAll(s, updates[..j]).keepAlive.connectedAt == updates[j - 1].update.keepAlive.connectedAt
    decreases n
  {
    hide Apply, ConnectedTo, SameLink, ClearsAndReports;
    StepOf(s, updates, n);
    if n == j {
      ConnectionIsReported(ApplyAll(s, updates[..j - 1]), updates[j - 1], link);
    } else {
      ConnectedAtIsStreakStart(s, updates, j, n - 1, link);
      ConnectionKeepsTime(ApplyAll(s, updates[..n - 1]), updates[n - 1], link);
    }
  }

  lemma StepOf(s: RuntimeStatus, updates: seq<Update>, n: nat)
    requires 0 < n <= |updates|
    ensures ApplyAll(s, updates[..n]) == Apply(ApplyAll(s, updates[..n - 1]), updates[n - 1])
  {
    hide Apply;
    assert updates[..n][..n - 1] == updates[..n - 1];
  }
}
