/** Start, Stop, StopAll and ReplaceConfig as a concurrent protocol. A system
    state holds what the lock guards, every runner ever started, and every call
    ever made; each step is one section under the lock or one action of a runner. */
module Protocol {
  import opened Lifecycle
  import opened Persistence
  import opened Status
  import opened Wrappers

  /** `begun` once Run has set cancelRun; `done` once it has closed its channel;
      `cleaned` once the goroutine of Start has done its cleanup. `seed` is the
      status that seedRuntime was given. */
  datatype RunnerState = RunnerState(
    id: string, seed: RuntimeStatus, begun: bool, cancelled: bool, done: bool, cleaned: bool)

  /** What is left to do after a wait or a clear: finish, or start a runner, in
      place of `replaced` if a running one was replaced. */
  datatype Then = Finish(outcome: Outcome) | StartNext(replaced: Option<Runner>)

  /** Where a call stands. clearRuntime clears the status and then, outside the
      lock, the stored mapping; `cleared` says whether a call has done both. A
      StopAll concerns no single instance, and `left` are the runners that it has
      still to signal, in any order. */
  datatype Call =
    | StopSignal(id: string, runner: Runner, clear: bool)
    | StopWait(id: string, runner: Runner, clear: bool)
    | StopAllSignal(id: string, left: set<Runner>)
    | ReplaceSignal(id: string, runner: Runner, clear: bool)
    | ReplaceWait(id: string, runner: Runner, clear: bool)
    | ReplaceDrop(id: string, runner: Runner, clear: bool)
    | Clearing(id: string, next: Then)
    | ClearingStore(id: string, next: Then)
    | Lookup(id: string, replaced: Option<Runner>, cleared: bool)
    | StartReady(id: string, replaced: Option<Runner>, cleared: bool)
    | Returned(id: string, outcome: Outcome)

  datatype Outcome =
    StartedOver(replaced: Option<Runner>) | StopOk(stopped: Option<Runner>) | NotFound | TimedOut | NothingToDo

  type Mappings = map<string, PersistedStatus>

  /** `stored` are the mappings that the store holds in memory. */
  datatype System = System(core: Core, stored: Mappings, runners: map<Runner, RunnerState>, calls: map<nat, Call>)

  datatype Step =
    | CallStart(call: nat, id: string)
    | CallStop(call: nat, id: string, now: Time)
    | CallStopAll(call: nat)
    | CallReplace(call: nat, id: string, enabled: bool, wasRunning: bool, changed: bool, now: Time)
    | Proceed(call: nat, ok: bool, runner: Runner, now: Time)
    | Begin(runner: Runner)
    | Emit(runner: Runner, update: RuntimeStatus, now: Time)
    | End(runner: Runner)
    | Cleanup(runner: Runner, now: Time)

  /** A fresh manager over a store. */
  function Initial(stored: Mappings): System {
    System(Core(map[], map[]), stored, map[], map[])
  }

  /** The call continues after its optional clear. */
  function Continue(id: string, clear: bool, next: Then): Call {
    if clear then Clearing(id, next) else Resume(id, next, false)
  }

  function Resume(id: string, next: Then, cleared: bool): Call {
    match next
    case Finish(outcome) => Returned(id, outcome)
    case StartNext(replaced) => Lookup(id, replaced, cleared)
  }

  predicate Enabled(s: System, step: Step) {
    match step
    case CallStart(t, _) => t !in s.calls
    case CallStop(t, _, _) => t !in s.calls
    case CallStopAll(t) => t !in s.calls
    case CallReplace(t, _, _, _, _, _) => t !in s.calls
    case Proceed(t, ok, r, _) =>
      && t in s.calls
      && (match s.calls[t]
          case StopWait(_, waited, _) => ok ==> waited in s.runners && s.runners[waited].done
          case ReplaceWait(_, waited, _) => ok ==> waited in s.runners && s.runners[waited].done
          case StopAllSignal(_, left) => r in left
          case StartReady(_, _, _) => r !in s.runners
          case Returned(_, _) => false
          case _ => true)
    case Begin(r) => r in s.runners && !s.runners[r].begun
    case Emit(r, _, _) => r in s.runners
    case End(r) => r in s.runners && s.runners[r].begun && !s.runners[r].done
    case Cleanup(r, _) => r in s.runners && s.runners[r].done && !s.runners[r].cleaned
  }

  /** runner.Stop(): it cancels a run that has begun. */
  function Signalled(runners: map<Runner, RunnerState>, r: Runner): map<Runner, RunnerState> {
    if r in runners && runners[r].begun then runners[r := runners[r].(cancelled := true)] else runners
  }

  /** The next section of a call. `ok` is false when a wait times out or a look-up
      finds no such instance; `r` is the identity of a runner to create, or the
      runner that a StopAll signals next. */
  function Proceeded(s: System, t: nat, ok: bool, r: Runner, now: Time): System
    requires Enabled(s, Proceed(t, ok, r, now))
  {
    match s.calls[t]
    case StopSignal(id, runner, clear) =>
      s.(runners := Signalled(s.runners, runner), calls := s.calls[t := StopWait(id, runner, clear)])
    case StopWait(id, runner, clear) =>
      if ok then s.(calls := s.calls[t := Continue(id, clear, Finish(StopOk(Some(runner))))])
      else s.(calls := s.calls[t := Continue(id, clear, Finish(TimedOut))])
    case StopAllSignal(id, left) =>
      s.(runners := Signalled(s.runners, r), calls := s.calls[t := StopAllSignal(id, left - {r})])
    case ReplaceSignal(id, runner, clear) =>
      s.(runners := Signalled(s.runners, runner), calls := s.calls[t := ReplaceWait(id, runner, clear)])
    case ReplaceWait(id, runner, clear) =>
      s.(calls := s.calls[t := if ok then ReplaceDrop(id, runner, clear) else Returned(id, TimedOut)])
    case ReplaceDrop(id, runner, clear) =>
      s.(core := DropSection(s.core, id, runner), calls := s.calls[t := Continue(id, clear, StartNext(Some(runner)))])
    case Clearing(id, next) =>
      s.(core := ClearSection(s.core, id, now), calls := s.calls[t := ClearingStore(id, next)])
    case ClearingStore(id, next) =>
      s.(stored := Removed(s.stored, id), calls := s.calls[t := Resume(id, next, true)])
    case Lookup(id, replaced, cleared) =>
      s.(calls := s.calls[t := if ok then StartReady(id, replaced, cleared) else Returned(id, NotFound)])
    case StartReady(id, replaced, _) =>
      s.(core := StartSection(s.core, id, r, now),
         runners := if id in s.core.runners then s.runners
                    else
                      var seed := SeedFor(s.core, s.stored, id, now);
                      s.runners[r := RunnerState(id, seed, false, false, false, false)],
         calls := s.calls[t := Returned(id, StartedOver(replaced))])
    case Returned(_, _) => s
  }

  function After(s: System, step: Step): System
    requires Enabled(s, step)
  {
    match step
    case CallStart(t, id) => s.(calls := s.calls[t := Lookup(id, None, false)])
    case CallStop(t, id, now) => StopCalled(s, t, id, false, now)
    case CallStopAll(t) => s.(calls := s.calls[t := StopAllSignal("", s.core.runners.Values)])
    case CallReplace(t, id, enabled, wasRunning, changed, now) =>
      if !enabled then
        if wasRunning then StopCalled(s, t, id, changed, now)
        else s.(calls := s.calls[t := Returned(id, NothingToDo)])
      else if !wasRunning then s.(calls := s.calls[t := Continue(id, changed, StartNext(None))])
      else
        var call := match Found(s.core, id)
                    case None => Continue(id, changed, StartNext(None))
                    case Some(r) => ReplaceSignal(id, r, changed);
        s.(core := ReplaceSection(s.core, id, now), calls := s.calls[t := call])
    case Proceed(t, ok, r, now) => Proceeded(s, t, ok, r, now)
    case Begin(r) => s.(runners := s.runners[r := s.runners[r].(begun := true)])
    case Emit(r, update, now) => Emitted(s, s.runners[r].id, update, now)
    case End(r) => s.(runners := s.runners[r := s.runners[r].(done := true)])
    case Cleanup(r, now) =>
      s.(core := CleanupSection(s.core, s.runners[r].id, r, now),
         runners := s.runners[r := s.runners[r].(cleaned := true)])
  }

  /** report: the merged status is also stored if it concerns the mapping. */
  function Emitted(s: System, id: string, update: RuntimeStatus, now: Time): System {
    var core := ReportSection(s.core, id, update, now);
    s.(core := core, stored := if Persists(update) then Save(s.stored, id, core.status[id]) else s.stored)
  }

  function StopCalled(s: System, t: nat, id: string, clear: bool, now: Time): System {
    var call := match Found(s.core, id)
                case None => Continue(id, clear, Finish(StopOk(None)))
                case Some(r) => StopSignal(id, r, clear);
    s.(core := StopSection(s.core, id, now), calls := s.calls[t := call])
  }

  /** The system after a run, if each of its steps is enabled in turn. */
  function Run(stored: Mappings, steps: seq<Step>): Option<System> {
    if steps == [] then Some(Initial(stored))
    else
      match Run(stored, steps[..|steps| - 1])
      case None => None
      case Some(mid) =>
        if Enabled(mid, steps[|steps| - 1]) then Some(After(mid, steps[|steps| - 1])) else None
  }

  // ----- The invariant

  predicate InTable(c: Core, id: string, r: Runner) {
    id in c.runners && c.runners[id] == r
  }

  /** A runner that is not done is the one entered for its instance. */
  predicate LiveAreEntered(s: System) {
    forall r :: r in s.runners && !s.runners[r].done ==> InTable(s.core, s.runners[r].id, r)
  }

  /** An entry is a runner of that instance, before its cleanup. */
  predicate EntriesAreRunners(s: System) {
    forall id :: id in s.core.runners ==>
      s.core.runners[id] in s.runners && s.runners[s.core.runners[id]].id == id &&
      !s.runners[s.core.runners[id]].cleaned
  }

  predicate OfInstance(s: System, id: string, r: Runner) {
    r in s.runners && s.runners[r].id == id
  }

  /** A replaced runner is done and has left the table. */
  predicate Gone(s: System, id: string, replaced: Option<Runner>) {
    replaced.Some? ==>
      OfInstance(s, id, replaced.value) && s.runners[replaced.value].done && !InTable(s.core, id, replaced.value)
  }

  predicate OutcomeInv(s: System, id: string, outcome: Outcome) {
    match outcome
    case StartedOver(replaced) => Gone(s, id, replaced)
    case StopOk(stopped) => stopped.Some? ==> OfInstance(s, id, stopped.value) && s.runners[stopped.value].done
    case _ => true
  }

  predicate ThenInv(s: System, id: string, next: Then) {
    match next
    case Finish(outcome) => OutcomeInv(s, id, outcome)
    case StartNext(replaced) => Gone(s, id, replaced)
  }

  predicate CallInv(s: System, call: Call) {
    match call
    case StopSignal(id, r, _) => OfInstance(s, id, r)
    case StopWait(id, r, _) => OfInstance(s, id, r)
    case StopAllSignal(_, left) => forall r :: r in left ==> r in s.runners
    case ReplaceSignal(id, r, _) => OfInstance(s, id, r)
    case ReplaceWait(id, r, _) => OfInstance(s, id, r)
    case ReplaceDrop(id, r, _) => OfInstance(s, id, r) && s.runners[r].done
    case Clearing(id, next) => ThenInv(s, id, next)
    case ClearingStore(id, next) => ThenInv(s, id, next)
    case Lookup(id, replaced, _) => Gone(s, id, replaced)
    case StartReady(id, replaced, _) => Gone(s, id, replaced)
    case Returned(id, outcome) => OutcomeInv(s, id, outcome)
  }

  predicate CallsInv(s: System) {
    forall t :: t in s.calls ==> CallInv(s, s.calls[t])
  }

  predicate TableInv(s: System) {
    LiveAreEntered(s) && EntriesAreRunners(s)
  }

  predicate Inv(s: System) {
    TableInv(s) && CallsInv(s) && ValidCore(s.core)
  }

  // ----- Steps keep it

  /** What no step undoes: runners stay, keep their instance, and stay done; and
      a runner that is not entered for its instance never is again. */
  predicate Monotone(s: System, s': System) {
    forall r :: r in s.runners ==>
      && r in s'.runners && s'.runners[r].id == s.runners[r].id
      && (s.runners[r].done ==> s'.runners[r].done)
      && (!InTable(s.core, s.runners[r].id, r) ==> !InTable(s'.core, s.runners[r].id, r))
  }

  lemma CallInvIsStable(s: System, s': System, call: Call)
    requires Monotone(s, s') && CallInv(s, call)
    ensures CallInv(s', call)
  {
  }

  /** The status part: every section keeps the status of every instance quiet. */
  lemma StepKeepsStatus(s: System, step: Step)
    requires Enabled(s, step) && ValidCore(s.core)
    ensures ValidCore(After(s, step).core)
  {
    hide ValidCore, StartSection, CleanupSection, DropSection, StopSection, ReplaceSection, ClearSection, ReportSection;
    match step
    case Proceed(t, _, r, now) =>
      SectionsKeepValid(s.core, s.calls[t].id, if s.calls[t].ReplaceDrop? then s.calls[t].runner else r, now);
    case CallStop(_, id, now) => SectionsKeepValid(s.core, id, 0, now);
    case CallReplace(_, id, _, _, _, now) => SectionsKeepValid(s.core, id, 0, now);
    case Emit(r, update, now) => ReportKeepsValid(s.core, s.runners[r].id, update, now);
    case Cleanup(r, now) => SectionsKeepValid(s.core, s.runners[r].id, r, now);
    case _ =>
  }

  /** A step that enters, drops and finishes nothing. */
  lemma TableUnchanged(s: System, s': System)
    requires TableInv(s) && s'.core.runners == s.core.runners && s'.runners.Keys == s.runners.Keys
    requires forall r :: r in s.runners ==>
               && s'.runners[r].id == s.runners[r].id && s'.runners[r].done == s.runners[r].done
               && s'.runners[r].cleaned == s.runners[r].cleaned
    ensures TableInv(s') && Monotone(s, s')
  {
  }

  lemma TableEntered(s: System, s': System, id: string, r: Runner, seed: RuntimeStatus)
    requires TableInv(s) && r !in s.runners && id !in s.core.runners
    requires s'.core.runners == s.core.runners[id := r]
    requires s'.runners == s.runners[r := RunnerState(id, seed, false, false, false, false)]
    ensures TableInv(s') && Monotone(s, s')
  {
  }

  /** A runner that is done leaves the table, if it is in it. */
  lemma TableDropped(s: System, s': System, id: string, r: Runner)
    requires TableInv(s) && OfInstance(s, id, r) && s.runners[r].done
    requires s'.core.runners == if InTable(s.core, id, r) then s.core.runners - {id} else s.core.runners
    requires s'.runners == s.runners || s'.runners == s.runners[r := s.runners[r].(cleaned := true)]
    ensures TableInv(s') && Monotone(s, s') && !InTable(s'.core, id, r)
  {
  }

  lemma TableDone(s: System, s': System, r: Runner)
    requires TableInv(s) && r in s.runners
    requires s'.core.runners == s.core.runners && s'.runners == s.runners[r := s.runners[r].(done := true)]
    ensures TableInv(s') && Monotone(s, s')
  {
  }

  /** What the sections of a step do to the table. */
  lemma Tables(s: System, step: Step)
    requires Enabled(s, step)
    ensures match step
            case Proceed(t, _, r, now) =>
              var runner := if s.calls[t].ReplaceDrop? then s.calls[t].runner else r;
              TablesOf(s.core, s.calls[t].id, runner, now)
            case CallStop(_, id, now) => TablesOf(s.core, id, 0, now)
            case CallReplace(_, id, _, _, _, now) => TablesOf(s.core, id, 0, now)
            case Emit(r, update, now) => ReportSection(s.core, s.runners[r].id, update, now).runners == s.core.runners
            case Cleanup(r, now) => TablesOf(s.core, s.runners[r].id, r, now)
            case _ => true
  {
    match step
    case Proceed(t, _, r, now) =>
      SectionTables(s.core, s.calls[t].id, if s.calls[t].ReplaceDrop? then s.calls[t].runner else r, now);
    case CallStop(_, id, now) => SectionTables(s.core, id, 0, now);
    case CallReplace(_, id, _, _, _, now) => SectionTables(s.core, id, 0, now);
    case Emit(r, _, now) => SectionTables(s.core, s.runners[r].id, r, now);
    case Cleanup(r, now) => SectionTables(s.core, s.runners[r].id, r, now);
    case _ =>
  }

  predicate TablesOf(c: Core, id: string, r: Runner, now: Time) {
    var dropped := if InTable(c, id, r) then c.runners - {id} else c.runners;
    && StartSection(c, id, r, now).runners == (if id in c.runners then c.runners else c.runners[id := r])
    && CleanupSection(c, id, r, now).runners == dropped && DropSection(c, id, r).runners == dropped
    && StopSection(c, id, now).runners == c.runners && ReplaceSection(c, id, now).runners == c.runners
    && ClearSection(c, id, now).runners == c.runners
  }

  /** The table part. */
  lemma StepKeepsTable(s: System, step: Step)
    requires Enabled(s, step) && TableInv(s) && CallsInv(s)
    ensures TableInv(After(s, step)) && Monotone(s, After(s, step))
  {
    hide TableInv, Monotone, CallsInv, Proceeded, Save;
    hide StartSection, CleanupSection, DropSection, StopSection, ReplaceSection, ClearSection, ReportSection;
    Tables(s, step);
    var s' := After(s, step);
    match step
    case End(r) => TableDone(s, s', r);
    case Cleanup(r, now) => TableDropped(s, s', s.runners[r].id, r);
    case Proceed(t, ok, r, now) => ProceedKeepsTable(s, t, ok, r, now);
    case _ => TableUnchanged(s, s');
  }

  lemma ProceedKeepsTable(s: System, t: nat, ok: bool, r: Runner, now: Time)
    requires Enabled(s, Proceed(t, ok, r, now)) && TableInv(s) && CallsInv(s)
    ensures TableInv(Proceeded(s, t, ok, r, now)) && Monotone(s, Proceeded(s, t, ok, r, now))
  {
    assert CallInv(s, s.calls[t]);
    Tables(s, Proceed(t, ok, r, now));
    hide TableInv, Monotone, Proceeded, CallsInv;
    match s.calls[t]
    case ReplaceDrop(_, _, _) => DropKeepsTable(s, t, ok, r, now);
    case StartReady(_, _, _) => EnterKeepsTable(s, t, ok, r, now);
    case _ => OtherKeepsTable(s, t, ok, r, now);
  }

  lemma DropKeepsTable(s: System, t: nat, ok: bool, r: Runner, now: Time)
    requires Enabled(s, Proceed(t, ok, r, now)) && TableInv(s) && CallInv(s, s.calls[t]) && s.calls[t].ReplaceDrop?
    requires TablesOf(s.core, s.calls[t].id, s.calls[t].runner, now)
    ensures TableInv(Proceeded(s, t, ok, r, now)) && Monotone(s, Proceeded(s, t, ok, r, now))
  {
    hide TableInv, Monotone, DropSection;
    TableDropped(s, Proceeded(s, t, ok, r, now), s.calls[t].id, s.calls[t].runner);
  }

  lemma EnterKeepsTable(s: System, t: nat, ok: bool, r: Runner, now: Time)
    requires Enabled(s, Proceed(t, ok, r, now)) && TableInv(s) && s.calls[t].StartReady?
    requires TablesOf(s.core, s.calls[t].id, r, now)
    ensures TableInv(Proceeded(s, t, ok, r, now)) && Monotone(s, Proceeded(s, t, ok, r, now))
  {
    hide TableInv, Monotone, StartSection;
    var s' := Proceeded(s, t, ok, r, now);
    if s.calls[t].id in s.core.runners {
      TableUnchanged(s, s');
    } else {
      TableEntered(s, s', s.calls[t].id, r, SeedFor(s.core, s.stored, s.calls[t].id, now));
    }
  }

  lemma OtherKeepsTable(s: System, t: nat, ok: bool, r: Runner, now: Time)
    requires Enabled(s, Proceed(t, ok, r, now)) && TableInv(s) && !s.calls[t].ReplaceDrop? && !s.calls[t].StartReady?
    requires TablesOf(s.core, s.calls[t].id, r, now)
    ensures TableInv(Proceeded(s, t, ok, r, now)) && Monotone(s, Proceeded(s, t, ok, r, now))
  {
    hide TableInv, Monotone, ClearSection, StartSection, DropSection, SeedFor, Removed, Continue, Resume;
    TableUnchanged(s, Proceeded(s, t, ok, r, now));
  }

  /** The calls part: the invariants of the other calls are stable, and the call
      that moves establishes its own. */
  lemma StepKeepsCalls(s: System, step: Step)
    requires Enabled(s, step) && EntriesAreRunners(s) && CallsInv(s)
    requires Monotone(s, After(s, step))
    ensures CallsInv(After(s, step))
  {
    hide After, CallInv, Monotone, Enabled, EntriesAreRunners;
    var s' := After(s, step);
    forall t | t in s'.calls ensures CallInv(s', s'.calls[t]) {
      if CallOf(step) == Some(t) {
        MovedCall(s, step, t);
      } else {
        OtherCallsStay(s, step, t);
        CallInvIsStable(s, s', s.calls[t]);
      }
    }
  }

  function CallOf(step: Step): Option<nat> {
    match step
    case CallStart(t, _) => Some(t)
    case CallStop(t, _, _) => Some(t)
    case CallStopAll(t) => Some(t)
    case CallReplace(t, _, _, _, _, _) => Some(t)
    case Proceed(t, _, _, _) => Some(t)
    case _ => None
  }

  lemma OtherCallsStay(s: System, step: Step, t: nat)
    requires Enabled(s, step) && CallOf(step) != Some(t) && t in After(s, step).calls
    ensures t in s.calls && After(s, step).calls[t] == s.calls[t]
  {
    hide StartSection, CleanupSection, DropSection, StopSection, ReplaceSection, ClearSection, ReportSection, Signalled;
  }

  lemma MovedCall(s: System, step: Step, t: nat)
    requires Enabled(s, step) && EntriesAreRunners(s) && CallsInv(s) && CallOf(step) == Some(t)
    requires Monotone(s, After(s, step))
    ensures t in After(s, step).calls && CallInv(After(s, step), After(s, step).calls[t])
  {
    hide Monotone, EntriesAreRunners, CallInv, StopCalled, Proceeded, ReplaceSection, Continue;
    match step {
      case Proceed(_, ok, r, now) =>
        assert CallInv(s, s.calls[t]);
        ProceededCall(s, t, ok, r, now);
      case CallStop(_, id, now) => StoppedCall(s, t, id, false, now);
      case CallReplace(_, id, enabled, wasRunning, changed, now) =>
        if !enabled && wasRunning {
          StoppedCall(s, t, id, changed, now);
        } else {
          ReplacedCall(s, step);
        }
      case CallStopAll(_) => StopAllCall(s, t);
      case CallStart(_, id) => StartedCall(s, step);
    }
  }

  lemma StartedCall(s: System, step: Step)
    requires Enabled(s, step) && step.CallStart?
    ensures step.call in After(s, step).calls && CallInv(After(s, step), After(s, step).calls[step.call])
  {
  }

  lemma StopAllCall(s: System, t: nat)
    requires EntriesAreRunners(s) && Enabled(s, CallStopAll(t))
    ensures var s' := After(s, CallStopAll(t)); t in s'.calls && CallInv(s', s'.calls[t])
  {
  }

  lemma ReplacedCall(s: System, step: Step)
    requires Enabled(s, step) && EntriesAreRunners(s) && step.CallReplace? && (step.enabled || !step.wasRunning)
    ensures step.call in After(s, step).calls && CallInv(After(s, step), After(s, step).calls[step.call])
  {
    hide ReplaceSection;
  }

  lemma StoppedCall(s: System, t: nat, id: string, clear: bool, now: Time)
    requires EntriesAreRunners(s)
    ensures t in StopCalled(s, t, id, clear, now).calls
    ensures CallInv(StopCalled(s, t, id, clear, now), StopCalled(s, t, id, clear, now).calls[t])
  {
    hide StopSection;
  }

  lemma ProceededCall(s: System, t: nat, ok: bool, r: Runner, now: Time)
    requires Enabled(s, Proceed(t, ok, r, now)) && CallInv(s, s.calls[t])
    requires Monotone(s, Proceeded(s, t, ok, r, now))
    ensures t in Proceeded(s, t, ok, r, now).calls
    ensures CallInv(Proceeded(s, t, ok, r, now), Proceeded(s, t, ok, r, now).calls[t])
  {
    WaitsForDone(s, t, ok, r, now);
    hide *;
    CallInvIsStable(s, Proceeded(s, t, ok, r, now), s.calls[t]);
    if s.calls[t].ReplaceDrop? {
      DroppedCall(s, t, ok, r, now);
    } else {
      OtherProceededCall(s, t, ok, r, now);
    }
  }

  lemma DroppedCall(s: System, t: nat, ok: bool, r: Runner, now: Time)
    requires Enabled(s, Proceed(t, ok, r, now)) && s.calls[t].ReplaceDrop?
    requires CallInv(Proceeded(s, t, ok, r, now), s.calls[t])
    ensures t in Proceeded(s, t, ok, r, now).calls
    ensures CallInv(Proceeded(s, t, ok, r, now), Proceeded(s, t, ok, r, now).calls[t])
  {
  }

  lemma OtherProceededCall(s: System, t: nat, ok: bool, r: Runner, now: Time)
    requires Enabled(s, Proceed(t, ok, r, now)) && !s.calls[t].ReplaceDrop?
    requires CallInv(Proceeded(s, t, ok, r, now), s.calls[t])
    ensures t in Proceeded(s, t, ok, r, now).calls
    ensures CallInv(Proceeded(s, t, ok, r, now), Proceeded(s, t, ok, r, now).calls[t])
  {
    WaitsForDone(s, t, ok, r, now);
    hide StartSection, DropSection, ClearSection, SeedFor, Removed, Signalled, Enabled, InTable;
  }

  lemma WaitsForDone(s: System, t: nat, ok: bool, r: Runner, now: Time)
    requires Enabled(s, Proceed(t, ok, r, now))
    ensures t in s.calls
    ensures ok && (s.calls[t].StopWait? || s.calls[t].ReplaceWait?) ==>
              s.calls[t].runner in s.runners && s.runners[s.calls[t].runner].done
  {
  }

  lemma StepKeepsInv(s: System, step: Step)
    requires Inv(s) && Enabled(s, step)
    ensures Inv(After(s, step)) && Monotone(s, After(s, step))
  {
    StepKeepsStatus(s, step);
    StepKeepsTable(s, step);
    StepKeepsCalls(s, step);
  }

  // ----- What holds in every reachable state

  lemma {:induction false} EveryRunKeepsInv(stored: Mappings, steps: seq<Step>, s: System)
    requires Run(stored, steps) == Some(s)
    ensures Inv(s)
    decreases |steps|
  {
    if steps == [] {
    } else {
      var mid := Run(stored, steps[..|steps| - 1]).value;
      EveryRunKeepsInv(stored, steps[..|steps| - 1], mid);
      StepKeepsInv(mid, steps[|steps| - 1]);
    }
  }

  /** At most one runner of an instance is live: a runner that is not done is
      the one in the table, however the calls interleave. */
  lemma AtMostOneLive(stored: Mappings, steps: seq<Step>, s: System, a: Runner, b: Runner)
    requires Run(stored, steps) == Some(s)
    requires a in s.runners && b in s.runners && s.runners[a].id == s.runners[b].id
    requires !s.runners[a].done && !s.runners[b].done
    ensures a == b && InTable(s.core, s.runners[a].id, a)
  {
    EveryRunKeepsInv(stored, steps, s);
  }

  /** A late cleanup leaves a newer runner alone: neither its entry nor the
      status of the instance changes. A cleanup of the entered runner removes it
      and states "stopped", unless the status tells of an error. */
  lemma CleanupSparesNewerRunner(stored: Mappings, steps: seq<Step>, s: System, r: Runner, now: Time)
    requires Run(stored, steps) == Some(s) && Enabled(s, Cleanup(r, now))
    ensures var id := s.runners[r].id;
            var after := After(s, Cleanup(r, now)).core;
            && (forall live :: live in s.runners && !s.runners[live].done ==> InTable(after, s.runners[live].id, live))
            && (!InTable(s.core, id, r) ==> after == s.core)
            && (InTable(s.core, id, r) ==>
                  id !in after.runners && StatusOf(after, id, now).state ==
                  if StatusOf(s.core, id, now).state == Errored then Errored else Stopped)
  {
    EveryRunKeepsInv(stored, steps, s);
    StepKeepsInv(s, Cleanup(r, now));
  }

  /** A runner that is done does not stay in the table for good: its cleanup is
      still to come. */
  lemma DoneRunnerWillLeave(stored: Mappings, steps: seq<Step>, s: System, id: string, now: Time)
    requires Run(stored, steps) == Some(s) && id in s.core.runners
    ensures var r := s.core.runners[id];
            r in s.runners &&
            (s.runners[r].done ==> Enabled(s, Cleanup(r, now)) && id !in After(s, Cleanup(r, now)).core.runners)
  {
    EveryRunKeepsInv(stored, steps, s);
  }

  /** The final Start of ReplaceConfig leaves a runner in the table, and not the
      one that was replaced. */
  lemma ReplaceInstallsAnother(stored: Mappings, steps: seq<Step>, s: System, t: nat, ok: bool, r: Runner, now: Time)
    requires Run(stored, steps) == Some(s) && Enabled(s, Proceed(t, ok, r, now)) && s.calls[t].StartReady?
    ensures var after := After(s, Proceed(t, ok, r, now));
            var id := s.calls[t].id;
            && id in after.core.runners
            && after.calls[t] == Returned(id, StartedOver(s.calls[t].replaced))
            && (s.calls[t].replaced.Some? ==> after.core.runners[id] != s.calls[t].replaced.value)
  {
    EveryRunKeepsInv(stored, steps, s);
    assert CallInv(s, s.calls[t]);
    SectionTables(s.core, s.calls[t].id, r, now);
    hide StartSection;
  }

  /** And the replaced runner never comes back, whatever happens later. */
  lemma ReplacedNeverReturns(stored: Mappings, steps: seq<Step>, s: System, t: nat, id: string, replaced: Runner)
    requires Run(stored, steps) == Some(s)
    requires t in s.calls && s.calls[t] == Returned(id, StartedOver(Some(replaced)))
    ensures replaced in s.runners && s.runners[replaced].done
    ensures forall other :: other in s.core.runners ==> s.core.runners[other] != replaced
  {
    EveryRunKeepsInv(stored, steps, s);
    assert CallInv(s, s.calls[t]);
  }

  /** Start creates a runner exactly when the table holds none for the instance.
      After a Stop that saw its runner done, that is once its cleanup has run:
      before, a Start returns without an error and starts nothing. */
  lemma StartNeedsCleanup(stored: Mappings, steps: seq<Step>, s: System, t: nat, ok: bool, r: Runner, now: Time,
                          u: nat, stopped: Runner)
    requires Run(stored, steps) == Some(s) && Enabled(s, Proceed(t, ok, r, now)) && s.calls[t].StartReady?
    requires u in s.calls && s.calls[u] == Returned(s.calls[t].id, StopOk(Some(stopped)))
    requires InTable(s.core, s.calls[t].id, stopped) || s.calls[t].id !in s.core.runners
    ensures var after := After(s, Proceed(t, ok, r, now));
            && (stopped in s.runners && s.runners[stopped].cleaned ==>
                  r in after.runners && InTable(after.core, s.calls[t].id, r))
            && (InTable(s.core, s.calls[t].id, stopped) ==>
                  after.runners == s.runners &&
                  forall a :: OfInstance(after, s.calls[t].id, a) ==> after.runners[a].done)
  {
    EveryRunKeepsInv(stored, steps, s);
    assert CallInv(s, s.calls[u]);
    StartEnters(s, t, ok, r, now);
    hide After, Enabled, Run, CallsInv, ValidCore;
  }

  lemma StartEnters(s: System, t: nat, ok: bool, r: Runner, now: Time)
    requires Enabled(s, Proceed(t, ok, r, now)) && s.calls[t].StartReady?
    ensures var id, after := s.calls[t].id, After(s, Proceed(t, ok, r, now));
            if id in s.core.runners then after.runners == s.runners && after.core.runners == s.core.runners
            else r in after.runners && InTable(after.core, id, r)
  {
    SectionTables(s.core, s.calls[t].id, r, now);
    hide StartSection, SeedFor;
  }

  /** A Stop that returns without error has seen its runner done. */
  lemma StopReturnsAfterDone(stored: Mappings, steps: seq<Step>, s: System, t: nat, id: string, r: Runner)
    requires Run(stored, steps) == Some(s) && t in s.calls && s.calls[t] == Returned(id, StopOk(Some(r)))
    ensures OfInstance(s, id, r) && s.runners[r].done
  {
    EveryRunKeepsInv(stored, steps, s);
    assert CallInv(s, s.calls[t]);
  }

  /** No instance that is stopping or stopped shows a connection, whichever
      runner reported last. */
  lemma StoppedInstancesAreQuiet(stored: Mappings, steps: seq<Step>, s: System, id: string)
    requires Run(stored, steps) == Some(s) && id in s.core.status
    ensures QuietWhenStopped(s.core.status[id])
  {
    EveryRunKeepsInv(stored, steps, s);
  }

  /** Some call has signalled the runner after its Run had begun. */
  predicate SignalledAfterBegin(stored: Mappings, steps: seq<Step>, r: Runner) {
    steps != [] &&
    var before, last := steps[..|steps| - 1], steps[|steps| - 1];
    || SignalledAfterBegin(stored, before, r)
    || (match Run(stored, before)
        case None => false
        case Some(mid) => Signals(mid, last, r) && r in mid.runners && mid.runners[r].begun)
  }

  /** The step signals the runner. */
  predicate Signals(s: System, step: Step, r: Runner) {
    && step.Proceed? && step.call in s.calls
    && match s.calls[step.call]
       case StopSignal(_, runner, _) => runner == r
       case StopAllSignal(_, _) => step.runner == r
       case ReplaceSignal(_, runner, _) => runner == r
       case _ => false
  }

  /** A run is cancelled exactly if some Stop, StopAll or ReplaceConfig signalled it after
      it had begun. A signal that comes before is lost for good: cancelRun is still
      nil, and nothing remembers the signal. */
  lemma {:induction false} CancelledIffSignalled(stored: Mappings, steps: seq<Step>, s: System, r: Runner)
    requires Run(stored, steps) == Some(s) && r in s.runners
    ensures s.runners[r].cancelled <==> SignalledAfterBegin(stored, steps, r)
    decreases |steps|
  {
    var before, last := steps[..|steps| - 1], steps[|steps| - 1];
    var mid := Run(stored, before).value;
    StepCancels(mid, last, r);
    if r in mid.runners {
      CancelledIffSignalled(stored, before, mid, r);
    } else {
      NobodyToSignal(stored, before, mid, r);
    }
  }

  lemma StepCancels(s: System, step: Step, r: Runner)
    requires Enabled(s, step) && r in After(s, step).runners
    ensures After(s, step).runners[r].cancelled <==>
            r in s.runners && (s.runners[r].cancelled || (Signals(s, step, r) && s.runners[r].begun))
  {
    hide StartSection, CleanupSection, DropSection, StopSection, ReplaceSection, ClearSection, ReportSection;
  }

  lemma {:induction false} NobodyToSignal(stored: Mappings, steps: seq<Step>, s: System, r: Runner)
    requires Run(stored, steps) == Some(s) && r !in s.runners
    ensures !SignalledAfterBegin(stored, steps, r)
    decreases |steps|
  {
    if steps == [] {
    } else {
      var before := steps[..|steps| - 1];
      var mid := Run(stored, before).value;
      if r in mid.runners {
        RunnersStay(mid, steps[|steps| - 1], r);
      }
      NobodyToSignal(stored, before, mid, r);
    }
  }

  lemma RunnersStay(s: System, step: Step, r: Runner)
    requires Enabled(s, step) && r in s.runners
    ensures r in After(s, step).runners
  {
    hide StartSection, CleanupSection, DropSection, StopSection, ReplaceSection, ClearSection, ReportSection;
  }

  // ----- What single steps do

  /** A runner begins, ends and is cleaned up after once each, in this order; a call
      that has returned takes no further step. */
  lemma OnceEach(s: System, r: Runner, now: Time, later: Time, t: nat, ok: bool)
    ensures Enabled(s, Begin(r)) ==>
              var s' := After(s, Begin(r));
              s'.runners[r].begun && !Enabled(s', Begin(r)) && (Enabled(s', End(r)) <==> !s.runners[r].done)
    ensures Enabled(s, End(r)) ==>
              var s' := After(s, End(r));
              && s.runners[r].begun && s'.runners[r].done && !Enabled(s', End(r))
              && (Enabled(s', Cleanup(r, now)) <==> !s.runners[r].cleaned)
    ensures Enabled(s, Cleanup(r, now)) ==> s.runners[r].done && !Enabled(After(s, Cleanup(r, now)), Cleanup(r, later))
    ensures t in s.calls && s.calls[t].Returned? ==> !Enabled(s, Proceed(t, ok, r, now))
  {
  }

  /** The first step of ReplaceConfig, case by case: whether anything is to be done,
      whom it stops, and whether the status and the stored mapping are cleared first. */
  lemma WhatReplaceConfigDoes(s: System, t: nat, id: string, enabled: bool, wasRunning: bool, changed: bool, now: Time)
    requires t !in s.calls
    ensures var s' := After(s, CallReplace(t, id, enabled, wasRunning, changed, now));
            var call, entered := s'.calls[t], id in s.core.runners;
            var start := if changed then Clearing(id, StartNext(None)) else Lookup(id, None, false);
            var stopped := if changed then Clearing(id, Finish(StopOk(None))) else Returned(id, StopOk(None));
            && s'.runners == s.runners && s'.stored == s.stored && s'.core.runners == s.core.runners
            && (!wasRunning ==> s'.core == s.core && call == if enabled then start else Returned(id, NothingToDo))
            && (wasRunning && entered ==>
                  && StatusOf(s'.core, id, now).state == Stopping
                  && var r := s.core.runners[id];
                     call == if enabled then ReplaceSignal(id, r, changed) else StopSignal(id, r, changed))
            && (wasRunning && !entered && enabled ==> s'.core == s.core && call == start)
            && (wasRunning && !entered && !enabled ==>
                  StatusOf(s'.core, id, now).state == Stopped && call == stopped)
  {
  }

  /** What a report leaves in the store: the merged mapping, if the report concerns the
      mapping and the merged status has an address and a port. */
  lemma WhatAReportStores(s: System, r: Runner, update: RuntimeStatus, now: Time)
    requires r in s.runners
    ensures var id, s' := s.runners[r].id, After(s, Emit(r, update, now));
            var shown := StatusOf(s'.core, id, now);
            var concerns := update.publicAddress != "" || update.publicPort != 0 || update.publicUpdatedAt != 0;
            s'.stored ==
            if concerns && id != "" && shown.publicAddress != "" && shown.publicPort != 0
            then s.stored[id := Persisted(shown)] else s.stored
  {
    hide Merge;
  }

  // ----- StopAll

  /** The runner has begun, and the StopAll has signalled it or still will. */
  predicate Covered(s: System, t: nat, r: Runner) {
    && t in s.calls && s.calls[t].StopAllSignal? && r in s.runners && s.runners[r].begun
    && (r in s.calls[t].left || s.runners[r].cancelled)
  }

  /** Once a StopAll has no runner left to signal, every runner that was entered
      and had begun when it was called is cancelled. */
  lemma {:induction false} StopAllReachesAll(stored: Mappings, steps: seq<Step>, s: System, k: nat, r: Runner)
    requires Run(stored, steps) == Some(s) && k < |steps| && steps[k].CallStopAll?
    requires Run(stored, steps[..k]).Some?
    requires var was := Run(stored, steps[..k]).value;
             r in was.core.runners.Values && r in was.runners && was.runners[r].begun
    ensures Covered(s, steps[k].call, r)
    ensures s.calls[steps[k].call].left == {} ==> s.runners[r].cancelled
    decreases |steps|
  {
    var n := |steps| - 1;
    if k < n {
      assert steps[..n][..k] == steps[..k];
      StopAllReachesAll(stored, steps[..n], Run(stored, steps[..n]).value, k, r);
      StepKeepsCovered(Run(stored, steps[..n]).value, steps[n], steps[k].call, r);
    }
  }

  lemma StepKeepsCovered(s: System, step: Step, t: nat, r: Runner)
    requires Enabled(s, step) && Covered(s, t, r)
    ensures Covered(After(s, step), t, r)
  {
    hide StartSection, CleanupSection, DropSection, StopSection, ReplaceSection, ClearSection, ReportSection, SeedFor;
    if CallOf(step) != Some(t) {
      RunnersStay(s, step, r);
    }
  }
}
