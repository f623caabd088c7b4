/** The administrator's credential, shared through the data file by processes
    that do not lock each other out: servers and password changes from the
    command line. */
module Credentials {
  import opened Net
  import opened Pbkdf2
  import opened Wrappers
  import S = Store

  // ----- One process

  datatype ChangeError = NoDataFile | CannotRead | CannotParse | Refused(error: CredentialError) | NotWritten

  /** The credential that a change makes. */
  ghost function Changed(disk: Credential, username: string, password: seq<byte>, salt: seq<byte>, now: Time,
                   codec: Codec, prf: PRF, hashLen: nat): Result<Credential, CredentialError>
    requires HasSize(prf, hashLen)
  {
    var name := if username == "" then disk.username else username;
    if name == "" then Err(NoUsername)
    else if password == [] then Err(NoPassword)
    else
      var key := DerivedKey(prf, hashLen, password, salt, PASSWORD_ITERATIONS, KEY_SIZE);
      Ok(Credential(name, codec.encode(salt), codec.encode(key), PASSWORD_ITERATIONS, now))
  }

  /** ChangeAdminPassword, with nobody else writing meanwhile. The change is on
      disk afterwards unless the disk holds a later one; everything else is on disk
      as a store would have loaded it. */
  method ChangeAdminPassword(isIPv4: string -> bool, file: S.DataFile, username: string, password: seq<byte>,
                             salt: seq<byte>, now: Time, written: bool, codec: Codec, prf: PRF, hashLen: nat)
    returns (error: Option<ChangeError>)
    requires HasSize(prf, hashLen)
    modifies file
    ensures error.Some? ==> file.state == old(file.state)
    ensures error == match old(file.state)
                     case Missing => Some(NoDataFile)
                     case Unreadable => Some(CannotRead)
                     case Malformed => Some(CannotParse)
                     case Holds(disk) =>
                       match Changed(disk.admin, username, password, salt, now, codec, prf, hashLen)
                       case Err(e) => Some(Refused(e))
                       case Ok(_) => if written then None else Some(NotWritten)
    ensures error.None? ==>
      var disk := old(file.state).content;
      var cred := Changed(disk.admin, username, password, salt, now, codec, prf, hashLen).value;
      var kept := disk.admin.Complete() && (now == 0 || disk.admin.lastPassword > now);
      file.state == S.Holds(S.Content(if kept then disk.admin else cred, S.Loaded(disk.rest)))
  {
    match file.state
    case Missing =>
      return Some(NoDataFile);
    case Unreadable =>
      return Some(CannotRead);
    case Malformed =>
      return Some(CannotParse);
    case Holds(disk) =>
      var name := if username == "" then disk.admin.username else username;
      var created := NewAdminCredential(name, password, salt, codec, prf, hashLen);
      if created.Err? {
        return Some(Refused(created.error));
      }
      var rest := S.LoadDatabase(disk.rest);
      var store := new S.ConfigStore(isIPv4, file, created.value.(lastPassword := now), rest);
      var ok := store.SaveLocked(written);
      return if ok then None else Some(NotWritten);
  }

  // ----- Many processes

  /** A process reads the file when it opens it or starts a change; a save is a
      refresh and then a write, and other processes may come between. A refresh
      without a write is a call of Admin, or a save whose write failed. An edit
      changes something else than the credential, in memory. */
  datatype Step =
    | Open(process: nat)
    | Change(process: nat, cred: Credential)
    | Edit(process: nat)
    | Refresh(process: nat)
    | Write(process: nat)

  /** `refreshed` holds the processes that may write, `overtaken` those of them
      that another process has written past. */
  datatype State = State(disk: Credential, memory: map<nat, Credential>, refreshed: set<nat>, overtaken: set<nat>)

  function Initial(disk: Credential): State {
    State(disk, map[], {}, {})
  }

  /** The state after a step; None if the process cannot take it. */
  function Next(s: State, step: Step): Option<State> {
    var p := step.process;
    match step
    case Open(_) => Some(s.(memory := s.memory[p := s.disk], refreshed := s.refreshed - {p}))
    case Change(_, cred) => Some(s.(memory := s.memory[p := cred], refreshed := s.refreshed - {p}))
    case Edit(_) => if p !in s.memory then None else Some(s.(refreshed := s.refreshed - {p}))
    case Refresh(_) =>
      if p !in s.memory then None
      else Some(s.(memory := s.memory[p := S.Refreshed(s.memory[p], Some(s.disk))],
                   refreshed := s.refreshed + {p}, overtaken := s.overtaken - {p}))
    case Write(_) =>
      if p !in s.memory || p !in s.refreshed then None
      else Some(s.(disk := s.memory[p], refreshed := s.refreshed - {p}, overtaken := s.refreshed - {p}))
  }

  function Run(start: State, steps: seq<Step>): Option<State> {
    if steps == [] then Some(start)
    else
      match Run(start, steps[..|steps| - 1])
      case None => None
      case Some(s) => Next(s, steps[|steps| - 1])
  }

  /** The write of p stores no older credential than the one on disk: the
      comparison that saveLocked leaves out between its refresh and its write. */
  predicate NotOlder(s: State, p: nat) {
    p in s.memory ==> s.memory[p].lastPassword >= s.disk.lastPassword
  }

  /** No write of the run stores an older credential than the one on disk. */
  predicate NeverOlder(start: State, steps: seq<Step>) {
    steps != [] ==>
      var before, last := steps[..|steps| - 1], steps[|steps| - 1];
      && NeverOlder(start, before)
      && (last.Write? && Run(start, before).Some? ==> NotOlder(Run(start, before).value, last.process))
  }

  /** Every save is atomic: no process writes after another has written past its refresh. */
  predicate Atomic(start: State, steps: seq<Step>) {
    steps != [] ==>
      var before, last := steps[..|steps| - 1], steps[|steps| - 1];
      && Atomic(start, before)
      && (last.Write? && Run(start, before).Some? ==> last.process !in Run(start, before).value.overtaken)
  }

  /** The changes a process has made and not saved. */
  function Pending(steps: seq<Step>): map<nat, Credential> {
    if steps == [] then map[]
    else
      var pending := Pending(steps[..|steps| - 1]);
      match steps[|steps| - 1]
      case Change(p, cred) => pending[p := cred]
      case Open(p) => pending - {p}
      case Write(p) => pending - {p}
      case Edit(_) => pending
      case Refresh(_) => pending
  }

  /** The changes whose save has ended, and the credential of the start. */
  function Saved(disk: Credential, steps: seq<Step>): set<Credential> {
    if steps == [] then {disk}
    else
      var before, last := steps[..|steps| - 1], steps[|steps| - 1];
      var pending := Pending(before);
      Saved(disk, before) + if last.Write? && last.process in pending then {pending[last.process]} else {}
  }

  /** Credentials are complete, and one time belongs to one credential. */
  ghost predicate ProperChanges(disk: Credential, steps: seq<Step>) {
    && disk.Complete()
    && (forall i :: 0 <= i < |steps| && steps[i].Change? ==>
          steps[i].cred.Complete() && (steps[i].cred.lastPassword == disk.lastPassword ==> steps[i].cred == disk))
    && (forall i, j :: 0 <= i < j < |steps| && steps[i].Change? && steps[j].Change? ==>
          (steps[i].cred.lastPassword == steps[j].cred.lastPassword ==> steps[i].cred == steps[j].cred))
  }

  /** c is the newest of a set, and the only one of its time. */
  ghost predicate IsNewest(c: Credential, all: set<Credential>) {
    c in all && forall d :: d in all ==> d == c || d.lastPassword < c.lastPassword
  }

  /** The disk holds the newest of all saved credentials, now and after every
      earlier step. */
  ghost predicate AlwaysNewest(disk: Credential, steps: seq<Step>)
    requires Run(Initial(disk), steps).Some?
  {
    && IsNewest(Run(Initial(disk), steps).value.disk, Saved(disk, steps))
    && (steps != [] ==> AlwaysNewest(disk, steps[..|steps| - 1]))
  }

  // ----- What every run keeps whose writes are never older

  ghost predicate Upper(c: Credential, all: set<Credential>) {
    forall d :: d in all ==> d.lastPassword <= c.lastPassword
  }

  ghost predicate MemoryInv(memory: Credential, saved: set<Credential>, pending: Option<Credential>) {
    && memory.Complete()
    && (memory in saved || pending == Some(memory))
    && (pending.Some? ==> pending.value.lastPassword <= memory.lastPassword)
  }

  function PendingOf(pending: map<nat, Credential>, p: nat): Option<Credential> {
    if p in pending then Some(pending[p]) else None
  }

  ghost predicate Inv(s: State, saved: set<Credential>, pending: map<nat, Credential>) {
    && s.disk in saved && s.disk.Complete() && Upper(s.disk, saved)
    && forall p :: p in s.memory ==> MemoryInv(s.memory[p], saved, PendingOf(pending, p))
  }

  lemma {:induction false} RunsKeepInv(disk: Credential, steps: seq<Step>)
    requires ProperChanges(disk, steps) && Run(Initial(disk), steps).Some? && NeverOlder(Initial(disk), steps)
    ensures Inv(Run(Initial(disk), steps).value, Saved(disk, steps), Pending(steps))
  {
    if steps == [] {
    } else {
      var before := steps[..|steps| - 1];
      RunsKeepInv(disk, before);
      var s := Run(Initial(disk), before).value;
      if steps[|steps| - 1].Write? {
        WriteKeepsInv(s, Saved(disk, before), Pending(before), steps[|steps| - 1].process);
      }
    }
  }

  lemma WriteKeepsInv(s: State, saved: set<Credential>, pending: map<nat, Credential>, p: nat)
    requires Inv(s, saved, pending) && Next(s, Write(p)).Some? && NotOlder(s, p)
    ensures Inv(Next(s, Write(p)).value, saved + (if p in pending then {pending[p]} else {}), pending - {p})
  {
  }

  /** A process that refreshed and was not overtaken holds nothing older than the disk. */
  ghost predicate RefreshedInv(s: State) {
    s.disk.Complete() &&
    forall p :: p in s.memory ==>
      s.memory[p].Complete() && (p in s.refreshed && p !in s.overtaken ==> NotOlder(s, p))
  }

  lemma {:induction false} RunsKeepRefreshed(disk: Credential, steps: seq<Step>)
    requires ProperChanges(disk, steps) && Run(Initial(disk), steps).Some?
    ensures RefreshedInv(Run(Initial(disk), steps).value)
  {
    if steps == [] {
    } else {
      RunsKeepRefreshed(disk, steps[..|steps| - 1]);
    }
  }

  /** Atomic saves never write an older credential. */
  lemma {:induction false} AtomicIsNeverOlder(disk: Credential, steps: seq<Step>)
    requires ProperChanges(disk, steps) && Run(Initial(disk), steps).Some? && Atomic(Initial(disk), steps)
    ensures NeverOlder(Initial(disk), steps)
  {
    if steps == [] {
    } else {
      AtomicIsNeverOlder(disk, steps[..|steps| - 1]);
      RunsKeepRefreshed(disk, steps[..|steps| - 1]);
    }
  }

  // ----- The newest credential survives

  /** Credentials of a run with one time are one. */
  lemma {:induction false} SavedAreChanges(disk: Credential, steps: seq<Step>)
    ensures forall c :: c in Saved(disk, steps) ==>
              c == disk || exists i :: 0 <= i < |steps| && steps[i] == Change(steps[i].process, c)
    ensures forall p :: p in Pending(steps) ==> exists i :: 0 <= i < |steps| && steps[i] == Change(p, Pending(steps)[p])
  {
    if steps == [] {
    } else {
      var n := |steps| - 1;
      SavedAreChanges(disk, steps[..n]);
      forall p | p in Pending(steps) ensures exists i :: 0 <= i < |steps| && steps[i] == Change(p, Pending(steps)[p]) {
        if steps[n].Change? && steps[n].process == p {
          assert steps[n] == Change(p, Pending(steps)[p]);
        } else {
          assert Pending(steps)[p] == Pending(steps[..n])[p];
          var i :| 0 <= i < n && steps[..n][i] == Change(p, Pending(steps)[p]);
          assert steps[i] == Change(p, Pending(steps)[p]);
        }
      }
      forall c | c in Saved(disk, steps) && c != disk
        ensures exists i :: 0 <= i < |steps| && steps[i] == Change(steps[i].process, c)
      {
        if c in Saved(disk, steps[..n]) {
          var i :| 0 <= i < n && steps[..n][i] == Change(steps[..n][i].process, c);
          assert steps[i] == Change(steps[i].process, c);
        } else {
          var p := steps[n].process;
          var i :| 0 <= i < n && steps[..n][i] == Change(p, c);
          assert steps[i] == Change(steps[i].process, c);
        }
      }
    }
  }

  lemma UpperIsNewest(disk: Credential, steps: seq<Step>, c: Credential)
    requires ProperChanges(disk, steps) && c in Saved(disk, steps) && Upper(c, Saved(disk, steps))
    ensures IsNewest(c, Saved(disk, steps))
  {
    SavedAreChanges(disk, steps);
    hide Saved, Pending;
  }

  /** As long as no write was older, the disk holds the newest of all saved
      credentials. */
  lemma DiskIsNewest(disk: Credential, steps: seq<Step>)
    requires ProperChanges(disk, steps) && Run(Initial(disk), steps).Some? && NeverOlder(Initial(disk), steps)
    ensures IsNewest(Run(Initial(disk), steps).value.disk, Saved(disk, steps))
  {
    RunsKeepInv(disk, steps);
    UpperIsNewest(disk, steps, Run(Initial(disk), steps).value.disk);
  }

  /** One more write keeps it the newest if and only if it stores no older
      credential than the one on disk, overtaken or not. */
  lemma WriteKeepsNewest(disk: Credential, steps: seq<Step>, p: nat)
    requires ProperChanges(disk, steps) && Run(Initial(disk), steps).Some? && NeverOlder(Initial(disk), steps)
    requires Next(Run(Initial(disk), steps).value, Write(p)).Some?
    ensures var s := Run(Initial(disk), steps).value;
            IsNewest(Next(s, Write(p)).value.disk, Saved(disk, steps + [Write(p)])) <==>
            s.memory[p].lastPassword >= s.disk.lastPassword
  {
    var s := Run(Initial(disk), steps).value;
    var more := steps + [Write(p)];
    assert more[..|steps|] == steps;
    RunsKeepInv(disk, steps);
    if NotOlder(s, p) {
      forall i | 0 <= i < |more| && more[i].Change? ensures more[i] == steps[i] {
      }
      assert NeverOlder(Initial(disk), more);
      DiskIsNewest(disk, more);
    } else {
      assert s.disk in Saved(disk, more);
    }
  }

  /** Over whole runs: the newest credential is on disk after every step if and
      only if no write ever stores an older credential than the one on disk. */
  lemma {:induction false} AlwaysNewestIffNeverOlder(disk: Credential, steps: seq<Step>)
    requires ProperChanges(disk, steps) && Run(Initial(disk), steps).Some?
    ensures AlwaysNewest(disk, steps) <==> NeverOlder(Initial(disk), steps)
  {
    if steps == [] {
    } else {
      var before, last := steps[..|steps| - 1], steps[|steps| - 1];
      AlwaysNewestIffNeverOlder(disk, before);
      if NeverOlder(Initial(disk), before) {
        assert before + [last] == steps;
        if last.Write? {
          WriteKeepsNewest(disk, before, last.process);
        } else {
          DiskIsNewest(disk, steps);
        }
      }
    }
  }

  /** With atomic saves it always is. */
  lemma AtomicSavesKeepNewest(disk: Credential, steps: seq<Step>)
    requires ProperChanges(disk, steps) && Run(Initial(disk), steps).Some? && Atomic(Initial(disk), steps)
    ensures AlwaysNewest(disk, steps)
  {
    AtomicIsNeverOlder(disk, steps);
    AlwaysNewestIffNeverOlder(disk, steps);
  }

  /** Admin of a process with no unsaved change of its own returns the newest of
      all saved credentials. */
  lemma AdminIsNewest(disk: Credential, steps: seq<Step>, server: nat)
    requires ProperChanges(disk, steps) && Run(Initial(disk), steps).Some? && NeverOlder(Initial(disk), steps)
    requires server in Run(Initial(disk), steps).value.memory && server !in Pending(steps)
    ensures var s := Run(Initial(disk), steps).value;
            IsNewest(S.Refreshed(s.memory[server], Some(s.disk)), Saved(disk, steps))
  {
    RunsKeepInv(disk, steps);
    var s := Run(Initial(disk), steps).value;
    assert MemoryInv(s.memory[server], Saved(disk, steps), None);
    UpperIsNewest(disk, steps, S.Refreshed(s.memory[server], Some(s.disk)));
  }

  lemma {:induction false} SavedGrows(disk: Credential, steps: seq<Step>, more: seq<Step>)
    ensures Saved(disk, steps) <= Saved(disk, steps + more)
  {
    if more == [] {
      assert steps + more == steps;
    } else {
      assert (steps + more)[..|steps + more| - 1] == steps + more[..|more| - 1];
      SavedGrows(disk, steps, more[..|more| - 1]);
    }
  }

  /** Whatever happens after a saved change, the disk and every server's Admin
      hold that very credential or a later one. */
  lemma SavedChangeSurvives(disk: Credential, steps: seq<Step>, more: seq<Step>, cred: Credential, server: nat)
    requires var all := steps + more;
             ProperChanges(disk, all) && Run(Initial(disk), all).Some? && NeverOlder(Initial(disk), all)
    requires cred in Saved(disk, steps)
    requires server in Run(Initial(disk), steps + more).value.memory && server !in Pending(steps + more)
    ensures var s := Run(Initial(disk), steps + more).value;
            var admin := S.Refreshed(s.memory[server], Some(s.disk));
            && (s.disk == cred || s.disk.lastPassword > cred.lastPassword)
            && (admin == cred || admin.lastPassword > cred.lastPassword)
  {
    SavedGrows(disk, steps, more);
    DiskIsNewest(disk, steps + more);
    AdminIsNewest(disk, steps + more, server);
    hide Saved, Pending, Run, NeverOlder, S.Refreshed, ProperChanges;
  }

  /** Saves that are not atomic can lose a change for good: a server that
      refreshed before the change was written writes the old credential back,
      and Admin keeps returning it. */
  lemma OvertakenSaveLosesAChange(disk: Credential, cred: Credential)
    requires disk.Complete() && cred.Complete() && 0 < disk.lastPassword < cred.lastPassword
    ensures var steps := [Open(0), Change(1, cred), Refresh(0), Refresh(1), Write(1), Write(0), Refresh(0)];
            && Run(Initial(disk), steps).Some? && cred in Saved(disk, steps)
            && !Atomic(Initial(disk), steps) && !NeverOlder(Initial(disk), steps)
            && Run(Initial(disk), steps).value.disk == disk
            && Run(Initial(disk), steps).value.memory[0] == disk
  {
    var start, both := Initial(disk), map[0 := disk, 1 := cred];
    var d := [Open(0), Change(1, cred), Refresh(0), Refresh(1)];
    var e := d + [Write(1)];
    var f := e + [Write(0)];
    assert f + [Refresh(0)] == [Open(0), Change(1, cred), Refresh(0), Refresh(1), Write(1), Write(0), Refresh(0)];
    hide Run, Saved, Pending, Atomic, NeverOlder, S.Refreshed, Credential.Complete;
    BothRefresh(disk, cred);
    RunExtends(disk, d, Write(1));
    assert {0, 1} - {1} == {0};
    assert Run(start, e) == Some(State(cred, both, {0}, {0})) && cred in Saved(disk, e);
    RunExtends(disk, e, Write(0));
    assert Run(start, f).value.memory == both && !Atomic(start, f) && !NeverOlder(start, f);
    RunExtends(disk, f, Refresh(0));
    RefreshFromItself(disk);
  }

  lemma RefreshFromItself(cred: Credential)
    ensures S.Refreshed(cred, Some(cred)) == cred
  {
  }

  /** A server and a password change have both refreshed and not yet written. */
  lemma BothRefresh(disk: Credential, cred: Credential)
    requires disk.Complete() && cred.Complete() && 0 < disk.lastPassword < cred.lastPassword
    ensures var steps := [Open(0), Change(1, cred), Refresh(0), Refresh(1)];
            && Run(Initial(disk), steps) == Some(State(disk, map[0 := disk, 1 := cred], {0, 1}, {}))
            && 1 in Pending(steps) && Pending(steps)[1] == cred
  {
    var a := [Open(0)];
    var b := a + [Change(1, cred)];
    var c := b + [Refresh(0)];
    assert c + [Refresh(1)] == [Open(0), Change(1, cred), Refresh(0), Refresh(1)] && [] + a == a;
    assert S.Refreshed(disk, Some(disk)) == disk && S.Refreshed(cred, Some(disk)) == cred;
    EmptyRun(disk);
    hide Run, Saved, Pending, Atomic, NeverOlder, S.Refreshed, Credential.Complete;
    var none: set<nat> := {};
    var both := map[0 := disk, 1 := cred];
    assert none - {0} == none && none - {1} == none && none + {0} == {0} && {0} + {1} == {0, 1};
    assert map[][0 := disk][1 := cred] == both && both[0 := disk] == both && both[1 := cred] == both;
    RunExtends(disk, [], Open(0));
    RunExtends(disk, a, Change(1, cred));
    assert Run(Initial(disk), b) == Some(State(disk, both, {}, {}));
    RunExtends(disk, b, Refresh(0));
    RunExtends(disk, c, Refresh(1));
  }

  lemma EmptyRun(disk: Credential)
    ensures Run(Initial(disk), []) == Some(Initial(disk)) && Saved(disk, []) == {disk} && Pending([]) == map[]
  {
  }

  lemma RunExtends(disk: Credential, before: seq<Step>, step: Step)
    requires Run(Initial(disk), before).Some?
    ensures var s := Run(Initial(disk), before).value;
            && Run(Initial(disk), before + [step]) == Next(s, step)
            && (Atomic(Initial(disk), before + [step]) <==>
                Atomic(Initial(disk), before) && (step.Write? ==> step.process !in s.overtaken))
            && (NeverOlder(Initial(disk), before + [step]) <==>
                NeverOlder(Initial(disk), before) && (step.Write? ==> NotOlder(s, step.process)))
    ensures Saved(disk, before) <= Saved(disk, before + [step])
    ensures step.Write? && step.process in Pending(before) ==>
              Pending(before)[step.process] in Saved(disk, before + [step])
    ensures step.Change? ==> Pending(before + [step]) == Pending(before)[step.process := step.cred]
    ensures step.Refresh? ==> Pending(before + [step]) == Pending(before)
  {
  }
}
