/** What ReplaceConfig does about the old mapping when the change concerns it: a
    runner it starts knows nothing of the old mapping, unless a report has brought
    one in since. */
module ConfigChange {
  import opened Lifecycle
  import opened Net
  import opened Persistence
  import opened Protocol
  import opened Status
  import opened Wrappers
  import P = Publication

  /** The step reports a public address of the instance. */
  predicate Publishes(s: System, step: Step, id: string) {
    && step.Emit? && step.runner in s.runners && s.runners[step.runner].id == id
    && step.update.publicAddress != ""
  }

  /** Since the call last cleared the status of its instance, a report has brought
      in a public address. */
  predicate PublishedSinceClear(stored: Mappings, steps: seq<Step>, t: nat) {
    steps != [] &&
    var before, last := steps[..|steps| - 1], steps[|steps| - 1];
    match Run(stored, before)
    case None => false
    case Some(mid) =>
      && t in mid.calls && !Clears(mid, last, t)
      && (PublishedSinceClear(stored, before, t) || Publishes(mid, last, mid.calls[t].id))
  }

  /** The step is the first half of the clearRuntime of the call. */
  predicate Clears(s: System, step: Step, t: nat) {
    step.Proceed? && step.call == t && t in s.calls && s.calls[t].Clearing?
  }

  // ----- A changed mapping is cleared before the start

  /** The call starts nothing before it has cleared the old mapping. */
  predicate ClearsFirst(call: Call) {
    match call
    case StopSignal(_, _, clear) => clear
    case StopWait(_, _, clear) => clear
    case ReplaceSignal(_, _, clear) => clear
    case ReplaceWait(_, _, clear) => clear
    case ReplaceDrop(_, _, clear) => clear
    case Lookup(_, _, cleared) => cleared
    case StartReady(_, _, cleared) => cleared
    case _ => true
  }

  lemma {:induction false} ChangedReplaceClears(stored: Mappings, steps: seq<Step>, s: System, k: nat)
    requires Run(stored, steps) == Some(s) && k < |steps|
    requires steps[k].CallReplace? && steps[k].changed
    ensures steps[k].call in s.calls && ClearsFirst(s.calls[steps[k].call])
    decreases |steps|
  {
    var n := |steps| - 1;
    var mid := Run(stored, steps[..n]).value;
    if k < n {
      ChangedReplaceClears(stored, steps[..n], mid, k);
    }
    CallsMoveOn(mid, steps[n], steps[k].call);
  }

  lemma CallsMoveOn(s: System, step: Step, t: nat)
    requires Enabled(s, step)
    ensures t in s.calls ==>
              t in After(s, step).calls && (ClearsFirst(s.calls[t]) ==> ClearsFirst(After(s, step).calls[t]))
    ensures step.CallReplace? && step.changed ==>
              step.call in After(s, step).calls && ClearsFirst(After(s, step).calls[step.call])
  {
    hide StartSection, CleanupSection, DropSection, StopSection, ReplaceSection, ClearSection, ReportSection;
    hide Removed, Save, SeedFor;
  }

  // ----- What is cleared stays cleared

  predicate NoAddress(c: Core, id: string) {
    id in c.status ==> c.status[id].publicAddress == ""
  }

  /** What the call has cleared so far is still clear. */
  predicate StillClear(s: System, t: nat)
    requires t in s.calls
  {
    match s.calls[t]
    case ClearingStore(id, _) => NoAddress(s.core, id)
    case Lookup(id, _, cleared) => cleared ==> NoAddress(s.core, id) && id !in s.stored
    case StartReady(id, _, cleared) => cleared ==> NoAddress(s.core, id) && id !in s.stored
    case _ => true
  }

  lemma SectionsKeepNoAddress(c: Core, id: string, other: string, r: Runner, now: Time)
    requires NoAddress(c, id)
    ensures NoAddress(StartSection(c, other, r, now), id) && NoAddress(CleanupSection(c, other, r, now), id)
    ensures NoAddress(DropSection(c, other, r), id) && NoAddress(ClearSection(c, other, now), id)
    ensures NoAddress(StopSection(c, other, now), id) && NoAddress(ReplaceSection(c, other, now), id)
  {
  }

  lemma ReportKeepsNoAddress(s: System, id: string, other: string, update: RuntimeStatus, now: Time)
    requires NoAddress(s.core, id) && (other == id ==> update.publicAddress == "")
    ensures NoAddress(Emitted(s, other, update, now).core, id)
    ensures EntryOf(Emitted(s, other, update, now).stored, id) == EntryOf(s.stored, id)
  {
    hide MergeKeepAlive, Last;
  }

  lemma ClearedHasNoAddress(c: Core, id: string, now: Time)
    ensures NoAddress(ClearSection(c, id, now), id)
  {
  }

  /** The instance of a call never changes, and a step without a published address
      leaves what was cleared. */
  lemma StepKeepsClear(s: System, step: Step, t: nat)
    requires Enabled(s, step) && t in s.calls && s.calls[t].id != ""
    requires StillClear(s, t) && !Publishes(s, step, s.calls[t].id)
    ensures t in After(s, step).calls && StillClear(After(s, step), t)
  {
    var id := s.calls[t].id;
    SameInstance(s, step, t);
    hide NoAddress, StartSection, CleanupSection, DropSection, StopSection, ReplaceSection, ClearSection, ReportSection;
    hide Save, SeedFor, Signalled;
    match step {
      case Proceed(u, ok, r, now) => ProceedKeepsClear(s, t, u, ok, r, now);
      case Emit(r, update, now) =>
        if NoAddress(s.core, id) {
          ReportKeepsNoAddress(s, id, s.runners[r].id, update, now);
        }
        hide Emitted;
      case CallStop(_, other, now) =>
        if NoAddress(s.core, id) {
          SectionsKeepNoAddress(s.core, id, other, 0, now);
        }
      case CallReplace(_, other, _, _, _, now) =>
        if NoAddress(s.core, id) {
          SectionsKeepNoAddress(s.core, id, other, 0, now);
        }
      case Cleanup(r, now) =>
        if NoAddress(s.core, id) {
          SectionsKeepNoAddress(s.core, id, s.runners[r].id, r, now);
        }
      case _ =>
    }
  }

  lemma SameInstance(s: System, step: Step, t: nat)
    requires Enabled(s, step) && t in s.calls
    ensures t in After(s, step).calls && After(s, step).calls[t].id == s.calls[t].id
  {
    hide StartSection, CleanupSection, DropSection, StopSection, ReplaceSection, ClearSection, ReportSection;
    hide Removed, Save, SeedFor, Signalled;
  }

  lemma ProceedKeepsClear(s: System, t: nat, u: nat, ok: bool, r: Runner, now: Time)
    requires Enabled(s, Proceed(u, ok, r, now)) && t in s.calls && s.calls[t].id != "" && StillClear(s, t)
    ensures var s' := Proceeded(s, u, ok, r, now); t in s'.calls && StillClear(s', t)
  {
    hide NoAddress, StartSection, DropSection, ClearSection, SeedFor, Signalled;
    if t == u {
      ClearedHasNoAddress(s.core, s.calls[t].id, now);
    } else {
      ProceedKeepsCleared(s, s.calls[t].id, u, ok, r, now);
      OtherCallsStay(s, Proceed(u, ok, r, now), t);
      hide Proceeded;
    }
  }

  lemma ProceedKeepsCleared(s: System, id: string, u: nat, ok: bool, r: Runner, now: Time)
    requires Enabled(s, Proceed(u, ok, r, now))
    ensures var s' := Proceeded(s, u, ok, r, now);
            && (NoAddress(s.core, id) ==> NoAddress(s'.core, id))
            && (id !in s.stored ==> id !in s'.stored)
  {
    hide NoAddress, StartSection, DropSection, ClearSection, SeedFor, Signalled, Continue, Resume;
    if NoAddress(s.core, id) {
      var runner := if s.calls[u].ReplaceDrop? then s.calls[u].runner else r;
      SectionsKeepNoAddress(s.core, id, s.calls[u].id, runner, now);
    }
  }

  /** In every run: what a call has cleared is clear until a report publishes. */
  lemma {:induction false} ClearUntilPublished(stored: Mappings, steps: seq<Step>, s: System, t: nat)
    requires Run(stored, steps) == Some(s) && t in s.calls && s.calls[t].id != ""
    requires !PublishedSinceClear(stored, steps, t)
    ensures StillClear(s, t)
    decreases |steps|
  {
    var before, last := steps[..|steps| - 1], steps[|steps| - 1];
    var mid := Run(stored, before).value;
    if t in mid.calls {
      SameInstance(mid, last, t);
      if Clears(mid, last, t) {
        ClearedHasNoAddress(mid.core, mid.calls[t].id, last.now);
        hide NoAddress, ClearSection;
      } else {
        ClearUntilPublished(stored, before, mid, t);
        StepKeepsClear(mid, last, t);
      }
    } else {
      NewCallIsClear(mid, last, t);
    }
  }

  lemma NewCallIsClear(s: System, step: Step, t: nat)
    requires Enabled(s, step) && t !in s.calls && t in After(s, step).calls
    ensures StillClear(After(s, step), t)
  {
    hide StartSection, CleanupSection, DropSection, StopSection, ReplaceSection, ClearSection, ReportSection;
    hide NoAddress, Removed, Save, SeedFor, Signalled;
  }

  // ----- The new runner

  /** A ReplaceConfig that changes the mapping seeds the runner it starts with no
      public address, unless a report has published one since the clear: whatever
      other calls, runners and cleanups do in between. Seeded like that, the runner
      treats its first confirmed mapping as a change, whatever it is. */
  lemma ChangedMappingIsForgotten(stored: Mappings, steps: seq<Step>, s: System, k: nat, ok: bool, r: Runner, now: Time,
                                  publicIP: Option<IP>, privateIP: Option<IP>, protocol: string,
                                  e: P.MappingEvent, at: Time)
    requires Run(stored, steps) == Some(s) && k < |steps| && steps[k].CallReplace? && steps[k].changed
    requires var t := steps[k].call;
             && Enabled(s, Proceed(t, ok, r, now)) && s.calls[t].StartReady? && s.calls[t].id != ""
             && s.calls[t].id !in s.core.runners && !PublishedSinceClear(stored, steps, t)
    ensures var after := After(s, Proceed(steps[k].call, ok, r, now));
            && r in after.runners
            && var seed := after.runners[r].seed;
               var m := P.Seed(P.FRESH, seed.publicAddress, publicIP, seed.publicPort, seed.publicStableSince,
                               seed.publicUpdatedAt, privateIP, seed.privatePort, seed.protocol, protocol);
               seed.publicAddress == "" && m == P.FRESH && P.PublishStep(m, e, at).1.changed
  {
    ChangedReplaceClears(stored, steps, s, k);
    ClearUntilPublished(stored, steps, s, steps[k].call);
    hide StartSection;
  }

  // ----- Any runner started after a clear

  /** The step is the first half of a clearRuntime of the instance, in any call. */
  predicate ClearsStatus(s: System, step: Step, id: string) {
    step.Proceed? && step.call in s.calls && s.calls[step.call].Clearing? && s.calls[step.call].id == id
  }

  /** The step is the second half of one, which does nothing for an empty ID. */
  predicate ClearsStore(s: System, step: Step, id: string) {
    step.Proceed? && step.call in s.calls &&
    s.calls[step.call].ClearingStore? && s.calls[step.call].id == id && id != ""
  }

  /** No report has published an address of the instance after step k. */
  predicate QuietSince(stored: Mappings, steps: seq<Step>, k: nat, id: string) {
    |steps| > k + 1 ==>
      var before, last := steps[..|steps| - 1], steps[|steps| - 1];
      && QuietSince(stored, before, k, id)
      && (Run(stored, before).Some? ==> !Publishes(Run(stored, before).value, last, id))
  }

  /** Some call has done the second half after step k. */
  predicate StoreClearedSince(stored: Mappings, steps: seq<Step>, k: nat, id: string) {
    |steps| > k + 1 &&
    var before, last := steps[..|steps| - 1], steps[|steps| - 1];
    || StoreClearedSince(stored, before, k, id)
    || (Run(stored, before).Some? && ClearsStore(Run(stored, before).value, last, id))
  }

  /** A runner is started for the instance after the status was cleared at step k,
      and no address was published since. Whichever call starts it, it is seeded
      with the old stored mapping if and only if there was one and the store has
      not been cleared since. */
  lemma StartAfterClear(stored: Mappings, steps: seq<Step>, s: System, k: nat, id: string,
                        t: nat, ok: bool, r: Runner, now: Time)
    requires Run(stored, steps) == Some(s) && k < |steps| && QuietSince(stored, steps, k, id)
    requires Run(stored, steps[..k]).Some? && ClearsStatus(Run(stored, steps[..k]).value, steps[k], id)
    requires Enabled(s, Proceed(t, ok, r, now)) && s.calls[t].StartReady? && s.calls[t].id == id
    requires id !in s.core.runners
    ensures var was := Load(Run(stored, steps[..k]).value.stored, id);
            var after := After(s, Proceed(t, ok, r, now));
            && r in after.runners
            && (after.runners[r].seed.publicAddress != "" <==> was.Some? && !StoreClearedSince(stored, steps, k, id))
            && (after.runners[r].seed.publicAddress != "" ==> after.runners[r].seed == was.value)
  {
    EntrySinceClear(stored, steps, s, k, id);
    hide StartSection, Run, QuietSince, StoreClearedSince;
  }

  /** Since then the status has no address, and the store holds what it held until
      it is cleared. */
  lemma {:induction false} EntrySinceClear(stored: Mappings, steps: seq<Step>, s: System, k: nat, id: string)
    requires Run(stored, steps) == Some(s) && k < |steps| && QuietSince(stored, steps, k, id)
    requires Run(stored, steps[..k]).Some? && ClearsStatus(Run(stored, steps[..k]).value, steps[k], id)
    ensures NoAddress(s.core, id)
    ensures EntryOf(s.stored, id) ==
            if StoreClearedSince(stored, steps, k, id) then None else EntryOf(Run(stored, steps[..k]).value.stored, id)
    decreases |steps|
  {
    var before, last := steps[..|steps| - 1], steps[|steps| - 1];
    var mid := Run(stored, before).value;
    if k == |before| {
      ClearedHasNoAddress(mid.core, id, last.now);
      hide NoAddress, ClearSection;
    } else {
      assert before[..k] == steps[..k];
      EntrySinceClear(stored, before, mid, k, id);
      StepAfterClear(mid, last, id);
      hide After, NoAddress, EntryOf;
    }
  }

  lemma StepAfterClear(s: System, step: Step, id: string)
    requires Enabled(s, step) && NoAddress(s.core, id) && !Publishes(s, step, id)
    ensures NoAddress(After(s, step).core, id)
    ensures EntryOf(After(s, step).stored, id) == if ClearsStore(s, step, id) then None else EntryOf(s.stored, id)
  {
    hide NoAddress, StartSection, CleanupSection, DropSection, StopSection, ReplaceSection, ClearSection, ReportSection;
    hide Save, SeedFor, Signalled, EntryOf, Continue, Resume;
    match step {
      case Proceed(u, ok, r, now) => ProceedAfterClear(s, u, ok, r, now, id);
      case Emit(r, update, now) =>
        ReportKeepsNoAddress(s, id, s.runners[r].id, update, now);
        hide Emitted;
      case CallStop(_, other, now) => SectionsKeepNoAddress(s.core, id, other, 0, now);
      case CallReplace(_, other, _, _, _, now) => SectionsKeepNoAddress(s.core, id, other, 0, now);
      case Cleanup(r, now) => SectionsKeepNoAddress(s.core, id, s.runners[r].id, r, now);
      case _ =>
    }
  }

  lemma ProceedAfterClear(s: System, u: nat, ok: bool, r: Runner, now: Time, id: string)
    requires Enabled(s, Proceed(u, ok, r, now)) && NoAddress(s.core, id)
    ensures var s' := Proceeded(s, u, ok, r, now);
            && NoAddress(s'.core, id)
            && EntryOf(s'.stored, id) ==
               if ClearsStore(s, Proceed(u, ok, r, now), id) then None else EntryOf(s.stored, id)
  {
    ProceedKeepsCleared(s, id, u, ok, r, now);
    hide NoAddress, StartSection, DropSection, ClearSection, SeedFor, Signalled, Continue, Resume;
  }

  /** So a Start of another call between the two halves of a clear is seeded with
      the stored mapping that is about to be cleared. */
  lemma HalfClearedStart(stored: Mappings, id: string, r: Runner, now: Time)
    requires Load(stored, id).Some?
    ensures var steps := [CallReplace(0, id, true, false, true, now), CallStart(1, id), Proceed(1, true, r, now),
                          Proceed(0, true, r, now), Proceed(1, true, r, now)];
            && Run(stored, steps).Some?
            && var s := Run(stored, steps).value;
               0 in s.calls && s.calls[0].ClearingStore? &&
               r in s.runners && s.runners[r].seed == Load(stored, id).value
  {
    var d := [CallReplace(0, id, true, false, true, now), CallStart(1, id), Proceed(1, true, r, now),
              Proceed(0, true, r, now)];
    var last := Proceed(1, true, r, now);
    assert d + [last] ==
           [CallReplace(0, id, true, false, true, now), CallStart(1, id), Proceed(1, true, r, now),
            Proceed(0, true, r, now), Proceed(1, true, r, now)];
    HalfCleared(stored, id, r, now);
    RunOn(stored, d, last);
    hide Run, Load, QuietSince, StoreClearedSince, SeedFor, StartSection;
    StartAfterClear(stored, d, Run(stored, d).value, 3, id, 1, true, r, now);
  }

  /** Before that Start enters its runner. */
  lemma HalfCleared(stored: Mappings, id: string, r: Runner, now: Time)
    ensures var steps := [CallReplace(0, id, true, false, true, now), CallStart(1, id), Proceed(1, true, r, now),
                          Proceed(0, true, r, now)];
            && Run(stored, steps).Some? && Run(stored, steps[..3]).Some?
            && ClearsStatus(Run(stored, steps[..3]).value, steps[3], id)
            && Run(stored, steps[..3]).value.stored == stored
            && QuietSince(stored, steps, 3, id) && !StoreClearedSince(stored, steps, 3, id)
            && var s := Run(stored, steps).value;
               && s.calls == map[0 := ClearingStore(id, StartNext(None)), 1 := StartReady(id, None, false)]
               && s.runners == map[] && s.core.runners == map[]
  {
    var a := [CallReplace(0, id, true, false, true, now)];
    var b := a + [CallStart(1, id)];
    var c := b + [Proceed(1, true, r, now)];
    var d := c + [Proceed(0, true, r, now)];
    assert d == [CallReplace(0, id, true, false, true, now), CallStart(1, id), Proceed(1, true, r, now),
                 Proceed(0, true, r, now)];
    assert [] + a == a && d[..3] == c && QuietSince(stored, d, 3, id) && !StoreClearedSince(stored, d, 3, id);
    assert Run(stored, []) == Some(Initial(stored));
    hide Run, QuietSince, StoreClearedSince, After, Enabled;
    RunOn(stored, [], a[0]);
    RunOn(stored, a, CallStart(1, id));
    RunOn(stored, b, Proceed(1, true, r, now));
    RunOn(stored, c, Proceed(0, true, r, now));
    HalfStates(stored, id, r, now);
  }

  /** The states that it goes through. */
  lemma HalfStates(stored: Mappings, id: string, r: Runner, now: Time)
    ensures var clearing, a, c := Clearing(id, StartNext(None)),
                                   CallReplace(0, id, true, false, true, now), Initial(stored);
            var started := c.(calls := map[0 := clearing, 1 := Lookup(id, None, false)]);
            var ready := c.(calls := map[0 := clearing, 1 := StartReady(id, None, false)]);
            && Enabled(c, a) && After(c, a) == c.(calls := map[0 := clearing])
            && Enabled(After(c, a), CallStart(1, id)) && After(After(c, a), CallStart(1, id)) == started
            && Enabled(started, Proceed(1, true, r, now)) && After(started, Proceed(1, true, r, now)) == ready
            && Enabled(ready, Proceed(0, true, r, now))
            && After(ready, Proceed(0, true, r, now)) ==
               c.(core := ClearSection(c.core, id, now),
                  calls := map[0 := ClearingStore(id, StartNext(None)), 1 := StartReady(id, None, false)])
  {
    hide SetState;
  }

  lemma RunOn(stored: Mappings, before: seq<Step>, step: Step)
    requires Run(stored, before).Some?
    ensures var s := Run(stored, before).value;
            Run(stored, before + [step]) == if Enabled(s, step) then Some(After(s, step)) else None
  {
    assert (before + [step])[..|before|] == before;
    hide After, Enabled;
  }
}
