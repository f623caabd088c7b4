/** The data file as a whole, shared by processes that do not lock each other out:
    a save takes the credential from the file and nothing else, so it can undo
    what another process has saved. */
module SharedFile {
  import opened Credentials
  import opened Pbkdf2
  import opened Wrappers
  import S = Store

  /** What the file and the memory of each process have gone through: the edits,
      named by their position in the run. `base` is what a process found when it
      last read the file or wrote it last. */
  datatype Data = Data(disk: seq<nat>, memory: map<nat, seq<nat>>, base: map<nat, seq<nat>>)

  const START := Data([], map[], map[])

  /** Step k of a run. A refresh brings in nothing but the credential. */
  function After(d: Data, step: Step, k: nat): Data {
    var p := step.process;
    match step
    case Open(_) => d.(memory := d.memory[p := d.disk], base := d.base[p := d.disk])
    case Change(_, _) => d.(memory := d.memory[p := d.disk], base := d.base[p := d.disk])
    case Edit(_) => if p in d.memory then d.(memory := d.memory[p := d.memory[p] + [k]]) else d
    case Refresh(_) => d
    case Write(_) => if p in d.memory then Data(d.memory[p], d.memory, d.base[p := d.memory[p]]) else d
  }

  function DataOf(steps: seq<Step>): Data {
    if steps == [] then START else After(DataOf(steps[..|steps| - 1]), steps[|steps| - 1], |steps| - 1)
  }

  // ----- The two sides

  predicate Covers(a: seq<nat>, b: seq<nat>) {
    forall e :: e in b ==> e in a
  }

  /** No edit that the file has held is ever missing from it again. */
  ghost predicate KeepsEdits(steps: seq<Step>) {
    steps != [] ==>
      var before := steps[..|steps| - 1];
      KeepsEdits(before) && Covers(DataOf(steps).disk, DataOf(before).disk)
  }

  /** The file is as the process last read or wrote it. */
  predicate Current(d: Data, p: nat) {
    p in d.memory && p in d.base ==> d.disk == d.base[p]
  }

  /** Every write of the run finds the file like that. */
  ghost predicate AlwaysCurrent(steps: seq<Step>) {
    steps != [] ==>
      var before, last := steps[..|steps| - 1], steps[|steps| - 1];
      AlwaysCurrent(before) && (last.Write? ==> Current(DataOf(before), last.process))
  }

  // ----- What every run keeps

  predicate Distinct(s: seq<nat>) {
    forall i, j :: 0 <= i < j < |s| ==> s[i] != s[j]
  }

  predicate Below(s: seq<nat>, n: nat) {
    forall e :: e in s ==> e < n
  }

  /** A process holds what it found and, behind that, edits that are not in the file. */
  predicate ProcessInv(disk: seq<nat>, memory: seq<nat>, base: seq<nat>, n: nat) {
    && base <= memory && Distinct(memory) && Below(memory, n)
    && forall e :: e in memory[|base|..] ==> e !in disk
  }

  ghost predicate Inv(d: Data, n: nat) {
    && d.memory.Keys == d.base.Keys && Distinct(d.disk) && Below(d.disk, n)
    && (forall p :: p in d.memory ==> ProcessInv(d.disk, d.memory[p], d.base[p], n))
    && (forall p, q, e :: p in d.memory && q in d.memory && p != q && e in d.memory[p][|d.base[p]|..] ==>
          e !in d.memory[q])
  }

  lemma StepKeepsInv(d: Data, step: Step, n: nat)
    requires Inv(d, n)
    ensures Inv(After(d, step, n), n + 1)
  {
    var p := step.process;
    match step
    case Edit(_) =>
      if p in d.memory {
        EditKeepsInv(d, p, n);
      }
    case Write(_) =>
      if p in d.memory {
        WriteKeepsInv(d, p, n);
      }
    case Refresh(_) =>
    case _ =>
      ReadKeepsInv(d, p, n);
  }

  lemma ReadKeepsInv(d: Data, p: nat, n: nat)
    requires Inv(d, n)
    ensures Inv(After(d, Open(p), n), n + 1)
  {
    assert d.disk[|d.disk|..] == [];
  }

  lemma WriteKeepsInv(d: Data, p: nat, n: nat)
    requires Inv(d, n) && p in d.memory
    ensures Inv(After(d, Write(p), n), n + 1)
  {
    assert d.memory[p][|d.memory[p]|..] == [];
  }

  lemma EditKeepsInv(d: Data, p: nat, n: nat)
    requires Inv(d, n) && p in d.memory
    ensures Inv(After(d, Edit(p), n), n + 1)
  {
    var m, b := d.memory[p], d.base[p];
    assert ProcessInv(d.disk, m, b, n) && Distinct(m + [n]) by {
      assert forall i :: 0 <= i < |m| ==> m[i] in m;
    }
    assert (m + [n])[|b|..] == m[|b|..] + [n];
    assert ProcessInv(d.disk, m + [n], b, n + 1);
    var d' := After(d, Edit(p), n);
    forall q, r, e | q in d'.memory && r in d'.memory && q != r && e in d'.memory[q][|d'.base[q]|..]
      ensures e !in d'.memory[r]
    {
      assert r == p || d'.memory[r] == d.memory[r];
      assert q == p || e in d.memory[q][|d.base[q]|..];
      assert e in d.memory[q] || e == n;
    }
  }

  lemma {:induction false} RunsKeepInv(steps: seq<Step>)
    ensures Inv(DataOf(steps), |steps|)
  {
    hide Inv, After;
    if steps == [] {
      StartInv();
    } else {
      RunsKeepInv(steps[..|steps| - 1]);
      StepKeepsInv(DataOf(steps[..|steps| - 1]), steps[|steps| - 1], |steps| - 1);
    }
  }

  lemma StartInv()
    ensures Inv(START, 0)
  {
  }

  // ----- Runs whose writes are all current

  /** What a process found is still the beginning of what the file holds. */
  ghost predicate BasesInv(d: Data) {
    forall p :: p in d.base ==> d.base[p] <= d.disk
  }

  lemma {:induction false} CurrentRunsGrow(steps: seq<Step>)
    requires AlwaysCurrent(steps)
    ensures BasesInv(DataOf(steps))
    ensures steps != [] ==> DataOf(steps[..|steps| - 1]).disk <= DataOf(steps).disk
  {
    if steps == [] {
    } else {
      var before := steps[..|steps| - 1];
      CurrentRunsGrow(before);
      RunsKeepInv(before);
      CurrentStepGrows(DataOf(before), steps[|steps| - 1], |steps| - 1);
    }
  }

  lemma CurrentStepGrows(d: Data, step: Step, n: nat)
    requires Inv(d, n) && BasesInv(d) && (step.Write? ==> Current(d, step.process))
    ensures BasesInv(After(d, step, n)) && d.disk <= After(d, step, n).disk
  {
  }

  /** A write that is not current takes an edit off the file. */
  lemma StaleWriteLoses(d: Data, p: nat, n: nat)
    requires Inv(d, n) && BasesInv(d) && !Current(d, p)
    ensures !Covers(After(d, Write(p), n).disk, d.disk)
  {
    var k := |d.base[p]|;
    assert d.disk[..k] == d.base[p];
    assert d.memory[p] == d.base[p] + d.memory[p][k..];
    assert d.disk[k] !in d.base[p];
    assert d.disk[k] in d.disk;
  }

  /** Over every interleaving: no edit that was saved is ever lost if and only if
      every write finds the file as its process last read or wrote it. That is the
      comparison that saveLocked makes for the credential alone. */
  lemma {:induction false} EditsKeptIffCurrent(steps: seq<Step>)
    ensures KeepsEdits(steps) <==> AlwaysCurrent(steps)
  {
    if steps == [] {
    } else {
      var before, last := steps[..|steps| - 1], steps[|steps| - 1];
      EditsKeptIffCurrent(before);
      RunsKeepInv(before);
      hide Inv;
      if AlwaysCurrent(before) {
        CurrentRunsGrow(before);
        if last.Write? && !Current(DataOf(before), last.process) {
          StaleWriteLoses(DataOf(before), last.process, |before|);
        } else {
          CurrentRunsGrow(steps);
        }
      }
    }
  }

  // ----- One server and any number of password changes

  /** All edits so far, in order. */
  function Edits(steps: seq<Step>): seq<nat> {
    if steps == [] then []
    else
      var n := |steps| - 1;
      Edits(steps[..n]) + if steps[n].Edit? then [n] else []
  }

  /** The server opens the file first, and no other process edits anything. */
  predicate OneServer(steps: seq<Step>, server: nat) {
    && steps != [] && steps[0] == Open(server)
    && (forall i :: 0 < i < |steps| && steps[i].process == server ==> !steps[i].Open? && !steps[i].Change?)
    && (forall i :: 0 <= i < |steps| && steps[i].Edit? ==> steps[i].process == server)
  }

  /** A password change can take saved edits off the file, but the server still
      has them all: the file always holds the first so many, and every save of the
      server brings the rest back. */
  lemma {:induction false} ServerBringsEditsBack(steps: seq<Step>, server: nat)
    requires OneServer(steps, server)
    ensures var d := DataOf(steps);
            && server in d.memory && d.memory[server] == Edits(steps) && d.disk <= Edits(steps)
            && (forall p :: p in d.memory ==> d.memory[p] <= Edits(steps))
            && (steps[|steps| - 1] == Write(server) ==> d.disk == Edits(steps))
  {
    var before := steps[..|steps| - 1];
    if before == [] {
      assert DataOf(before) == START && Edits(before) == [];
    } else {
      ServerBringsEditsBack(before, server);
    }
  }

  /** Saves that are atomic, and keep the newest credential, can still take an edit
      off the file: a password change that read it before the server saved. */
  lemma AtomicSaveLosesAnEdit(disk: Credential, cred: Credential)
    requires disk.Complete() && cred.Complete() && 0 < disk.lastPassword < cred.lastPassword
    ensures var before := [Open(0), Change(1, cred), Edit(0), Refresh(0), Write(0), Refresh(1)];
            var steps := before + [Write(1)];
            && Run(Initial(disk), steps).Some? && Atomic(Initial(disk), steps) && NeverOlder(Initial(disk), steps)
            && DataOf(before).disk == [2] && DataOf(steps).disk == [] && !KeepsEdits(steps)
  {
    OvertakenEdit(cred);
    OvertakenChange(disk, cred);
    var before := [Open(0), Change(1, cred), Edit(0), Refresh(0), Write(0), Refresh(1)];
    var steps := before + [Write(1)];
    assert steps[..|steps| - 1] == before;
    hide DataOf, Run, Atomic, NeverOlder;
    assert 2 in DataOf(before).disk && !KeepsEdits(steps);
  }

  lemma DataExtends(before: seq<Step>, step: Step)
    ensures DataOf(before + [step]) == After(DataOf(before), step, |before|)
  {
    assert (before + [step])[..|before|] == before;
    hide After;
  }

  lemma OvertakenEdit(cred: Credential)
    ensures var before := [Open(0), Change(1, cred), Edit(0), Refresh(0), Write(0), Refresh(1)];
            DataOf(before).disk == [2] && DataOf(before + [Write(1)]).disk == []
  {
    var a := [Open(0)];
    var b := a + [Change(1, cred)];
    var c := b + [Edit(0)];
    var d := c + [Refresh(0)];
    var e := d + [Write(0)];
    var f := e + [Refresh(1)];
    assert f == [Open(0), Change(1, cred), Edit(0), Refresh(0), Write(0), Refresh(1)] && [] + a == a;
    assert DataOf([]) == START;
    hide DataOf;
    DataExtends([], Open(0));
    DataExtends(a, Change(1, cred));
    DataExtends(b, Edit(0));
    assert DataOf(c).memory[0] == [2] && DataOf(c).memory[1] == [];
    DataExtends(c, Refresh(0));
    DataExtends(d, Write(0));
    DataExtends(e, Refresh(1));
    DataExtends(f, Write(1));
  }

  lemma OvertakenChange(disk: Credential, cred: Credential)
    requires disk.Complete() && cred.Complete() && 0 < disk.lastPassword < cred.lastPassword
    ensures var steps := [Open(0), Change(1, cred), Edit(0), Refresh(0), Write(0), Refresh(1)] + [Write(1)];
            Run(Initial(disk), steps).Some? && Atomic(Initial(disk), steps) && NeverOlder(Initial(disk), steps)
  {
    var a := [Open(0)];
    var b := a + [Change(1, cred)];
    var c := b + [Edit(0)];
    var d := c + [Refresh(0)];
    var e := d + [Write(0)];
    var f := e + [Refresh(1)];
    assert f == [Open(0), Change(1, cred), Edit(0), Refresh(0), Write(0), Refresh(1)] && [] + a == a;
    assert S.Refreshed(disk, Some(disk)) == disk && S.Refreshed(cred, Some(disk)) == cred;
    EmptyRun(disk);
    assert Atomic(Initial(disk), []) && NeverOlder(Initial(disk), []);
    hide Run, Atomic, NeverOlder, S.Refreshed, Credential.Complete;
    var both := map[0 := disk, 1 := cred];
    assert map[][0 := disk][1 := cred] == both && both[0 := disk] == both && both[1 := cred] == both;
    RunExtends(disk, [], Open(0));
    RunExtends(disk, a, Change(1, cred));
    RunExtends(disk, b, Edit(0));
    RunExtends(disk, c, Refresh(0));
    assert Run(Initial(disk), d).value.memory == both && Run(Initial(disk), d).value.overtaken == {};
    RunExtends(disk, d, Write(0));
    RunExtends(disk, e, Refresh(1));
    assert Run(Initial(disk), f).value.memory == both && 1 !in Run(Initial(disk), f).value.overtaken;
    RunExtends(disk, f, Write(1));
  }
}
