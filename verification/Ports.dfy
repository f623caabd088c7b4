/** Local port selection: the bindPort setting, the port picker, and the port a
    runner keeps until it has to advance. */
module Ports {
  import opened Arith
  import opened Text
  import opened Wrappers

  const MAX_PORT := 65535

  datatype Picker = Picker(start: int, end: int, randomized: bool, next: int) {
    predicate Valid() {
      0 <= start <= next <= end <= MAX_PORT
    }

    function Size(): int {
      end - start + 1
    }

    predicate InRange(port: int) {
      start <= port <= end
    }
  }

  datatype SpecError = BadShape | BadNumber | BadRange

  // ----- The setting

  /** parsePortRange */
  function ParsePortRange(rawStart: string, rawEnd: string): (r: Result<(int, int), SpecError>)
    ensures r.Ok? ==> 0 <= r.value.0 <= r.value.1 <= MAX_PORT
  {
    match (Atoi(TrimSpace(rawStart)), Atoi(TrimSpace(rawEnd)))
    case (Some(start), Some(end)) =>
      if start < 0 || end < 0 || start > MAX_PORT || end > MAX_PORT || start > end then Err(BadRange)
      else Ok((start, end))
    case _ => Err(BadNumber)
  }

  function RangePicker(spec: string, separator: char): (r: Result<Picker, SpecError>)
    ensures r.Ok? ==> r.value.Valid() && r.value.next == r.value.start
  {
    var parts := Split(spec, separator);
    if |parts| != 2 then Err(BadShape)
    else
      match ParsePortRange(parts[0], parts[1])
      case Err(e) => Err(e)
      case Ok(range) => Ok(Picker(range.0, range.1, separator == '~', range.0))
  }

  /** newPortPicker */
  function NewPortPicker(setting: string): (r: Result<Picker, SpecError>)
    ensures r.Ok? ==> r.value.Valid() && r.value.next == r.value.start
  {
    var trimmed := TrimSpace(setting);
    var spec := if trimmed == "" then "0" else trimmed;
    if '~' in spec then RangePicker(spec, '~')
    else if '-' in spec then RangePicker(spec, '-')
    else
      match Atoi(spec)
      case None => Err(BadNumber)
      case Some(port) =>
        if port < 0 || port > MAX_PORT then Err(BadNumber) else Ok(Picker(port, port, false, port))
  }

  lemma SplitTwo(a: string, c: char, b: string)
    requires c !in a && c !in b
    ensures Split(a + [c] + b, c) == [a, b]
  {
    var s := a + [c] + b;
    assert s[|a|] == c;
    assert IndexOf(s, c) == |a|;
    assert s[..|a|] == a && s[|a| + 1..] == b;
    assert IndexOf(b, c) == |b|;
  }

  /** A printed number holds no space and no separator. */
  lemma NumberText(n: nat)
    requires n <= MAX_PORT
    ensures Itoa(n) != "" && Trimmed(Itoa(n), IsSpace) && TrimSpace(Itoa(n)) == Itoa(n)
    ensures '-' !in Itoa(n) && '~' !in Itoa(n)
    ensures Atoi(Itoa(n)) == Some(n)
  {
    AtoiItoa(n);
  }

  lemma RangeText(a: string, b: string, c: char)
    requires a != "" && b != "" && Trimmed(a, IsSpace) && Trimmed(b, IsSpace)
    ensures var s := a + [c] + b; s != "" && TrimSpace(s) == s && c in s
  {
  }

  lemma RangeReads(x: string, y: string, c: char, a: nat, b: nat)
    requires a <= b <= MAX_PORT && c !in x && c !in y
    requires TrimSpace(x) == x && TrimSpace(y) == y && Atoi(x) == Some(a) && Atoi(y) == Some(b)
    ensures RangePicker(x + [c] + y, c) == Ok(Picker(a, b, c == '~', a))
  {
    hide Atoi, Split, TrimSpace;
    SplitTwo(x, c, y);
  }

  lemma PortSetting(x: string, a: nat)
    requires a <= MAX_PORT && x != "" && '~' !in x && '-' !in x && TrimSpace(x) == x && Atoi(x) == Some(a)
    ensures NewPortPicker(x) == Ok(Picker(a, a, false, a))
  {
  }

  lemma RangeSetting(x: string, y: string, c: char, a: nat, b: nat)
    requires a <= b <= MAX_PORT && (c == '~' || (c == '-' && '~' !in x && '~' !in y)) && c !in x && c !in y
    requires x != "" && y != "" && Trimmed(x, IsSpace) && Trimmed(y, IsSpace)
    requires TrimSpace(x) == x && TrimSpace(y) == y && Atoi(x) == Some(a) && Atoi(y) == Some(b)
    ensures NewPortPicker(x + [c] + y) == Ok(Picker(a, b, c == '~', a))
  {
    hide Atoi, TrimSpace, RangePicker, Trimmed;
    RangeText(x, y, c);
    RangeReads(x, y, c, a, b);
    assert '~' in x + [c] + y ==> c == '~';
  }

  /** The three documented forms of the setting, for every port and range. */
  lemma SettingRoundTrip(a: nat, b: nat)
    requires a <= b <= MAX_PORT
    ensures NewPortPicker(Itoa(a)) == Ok(Picker(a, a, false, a))
    ensures NewPortPicker(Itoa(a) + ['-'] + Itoa(b)) == Ok(Picker(a, b, false, a))
    ensures NewPortPicker(Itoa(a) + ['~'] + Itoa(b)) == Ok(Picker(a, b, true, a))
  {
    NumberText(a);
    NumberText(b);
    hide *;
    PortSetting(Itoa(a), a);
    RangeSetting(Itoa(a), Itoa(b), '-', a, b);
    RangeSetting(Itoa(a), Itoa(b), '~', a, b);
  }

  /** Every setting without a separator: blank means any port, and a number counts
      if it is a port. */
  lemma PlainSetting(setting: string)
    requires '~' !in TrimSpace(setting) && '-' !in TrimSpace(setting)
    ensures var number := Atoi(TrimSpace(setting));
            NewPortPicker(setting) ==
            if TrimSpace(setting) == "" then Ok(Picker(0, 0, false, 0))
            else if number.Some? && 0 <= number.value <= 65535 then
              Ok(Picker(number.value, number.value, false, number.value))
            else Err(BadNumber)
  {
    hide TrimSpace;
    AtoiItoa(0);
    assert Itoa(0) == "0";
    hide Atoi;
  }

  /** Every setting with one separator: two numbers that are ports in order give that
      range, at random for '~'. A '-' counts only if there is no '~'. */
  lemma RangeSettingMeans(x: string, c: char, y: string)
    requires c !in x && c !in y && (c == '~' || (c == '-' && '~' !in x && '~' !in y))
    requires Trimmed(x + [c] + y, IsSpace)
    ensures var a, b := Atoi(TrimSpace(x)), Atoi(TrimSpace(y));
            NewPortPicker(x + [c] + y) ==
            if a.None? || b.None? then Err(BadNumber)
            else if 0 <= a.value <= b.value <= 65535 then Ok(Picker(a.value, b.value, c == '~', a.value))
            else Err(BadRange)
  {
    hide TrimSpace, Atoi, Split, Trimmed;
    SplitTwo(x, c, y);
    assert c in x + [c] + y && ('~' in x + [c] + y ==> c == '~');
  }

  /** With the separator twice there is no range. */
  lemma TwoSeparators(x: string, c: char, y: string, z: string)
    requires c !in x && c !in y && (c == '~' || (c == '-' && '~' !in x + y + z))
    requires Trimmed(x + [c] + (y + [c] + z), IsSpace)
    ensures NewPortPicker(x + [c] + (y + [c] + z)) == Err(BadShape)
  {
    hide TrimSpace, Atoi, Split, Trimmed;
    var rest := y + [c] + z;
    SplitFirst(x, c, rest);
    SplitFirst(y, c, z);
    assert c in x + [c] + rest && ('~' in x + [c] + rest ==> c == '~');
  }

  lemma SplitFirst(x: string, c: char, rest: string)
    requires c !in x
    ensures Split(x + [c] + rest, c) == [x] + Split(rest, c)
  {
    var s := x + [c] + rest;
    assert s[|x|] == c;
    assert IndexOf(s, c) == |x|;
    assert s[..|x|] == x && s[|x| + 1..] == rest;
  }

  // ----- The picker

  function Successor(p: Picker, port: int): int {
    if port + 1 > p.end then p.start else port + 1
  }

  /** The first draw that is not the port to avoid, before a failed draw. */
  function FirstDraw(p: Picker, draws: seq<Option<nat>>, avoid: int): Option<int> {
    if draws == [] || draws[0].None? then None
    else if p.start + draws[0].value != avoid then Some(p.start + draws[0].value)
    else FirstDraw(p, draws[1..], avoid)
  }

  /** NextExcept: the port, and the new value of next. */
  function Pick(p: Picker, avoid: int, draws: seq<Option<nat>>): (r: (int, int))
    requires p.Valid() && Drawn(p, draws)
    ensures p.InRange(r.0)
    ensures p.start <= r.1 <= p.end
    ensures p.Size() >= 2 ==> r.0 != avoid
  {
    if p.start == p.end then (p.start, p.next)
    else if p.randomized then
      DrawInRange(p, draws, avoid);
      match FirstDraw(p, draws, avoid)
      case Some(port) => (port, p.next)
      case None => (if p.start != avoid then p.start else p.start + 1, p.next)
    else if p.next == avoid then (Successor(p, p.next), Successor(p, Successor(p, p.next)))
    else (p.next, Successor(p, p.next))
  }

  /** Random draws: at most one for each port of the range, each below its size. */
  predicate Drawn(p: Picker, draws: seq<Option<nat>>) {
    |draws| == p.Size() && forall i :: 0 <= i < |draws| && draws[i].Some? ==> draws[i].value < p.Size()
  }

  lemma {:induction false} DrawInRange(p: Picker, draws: seq<Option<nat>>, avoid: int)
    requires forall i :: 0 <= i < |draws| && draws[i].Some? ==> draws[i].value < p.Size()
    ensures FirstDraw(p, draws, avoid).Some? ==>
      p.InRange(FirstDraw(p, draws, avoid).value) && FirstDraw(p, draws, avoid).value != avoid
  {
    if draws == [] {
    } else {
      DrawInRange(p, draws[1..], avoid);
    }
  }

  /** In random mode the port is start plus the first draw that avoids the failed
      port; if a draw fails first or none is left, it is the lowest port that avoids
      it. The draw of an interval of one port is not needed. */
  lemma RandomPick(p: Picker, avoid: int, draws: seq<Option<nat>>, i: nat)
    requires p.Valid() && Drawn(p, draws) && p.randomized && p.start < p.end && i <= |draws|
    requires forall j :: 0 <= j < i ==> draws[j] == Some(avoid - p.start)
    ensures i < |draws| && draws[i].Some? && draws[i].value != avoid - p.start ==>
              Pick(p, avoid, draws).0 == p.start + draws[i].value
    ensures i == |draws| || draws[i].None? ==>
              Pick(p, avoid, draws).0 == if p.start == avoid then p.start + 1 else p.start
    ensures Pick(p, avoid, draws).1 == p.next
  {
    FirstDrawAt(p, draws, avoid, i);
  }

  lemma {:induction false} FirstDrawAt(p: Picker, draws: seq<Option<nat>>, avoid: int, i: nat)
    requires i <= |draws| && forall j :: 0 <= j < i ==> draws[j].Some? && p.start + draws[j].value == avoid
    ensures FirstDraw(p, draws, avoid) == FirstDraw(p, draws[i..], avoid)
  {
    if i == 0 {
      assert draws[0..] == draws;
    } else {
      FirstDrawAt(p, draws[1..], avoid, i - 1);
      assert draws[1..][i - 1..] == draws[i..];
    }
  }

  class PortPicker {
    var start: int
    var end: int
    var randomized: bool
    var next: int

    ghost function State(): Picker
      reads this
    {
      Picker(start, end, randomized, next)
    }

    constructor (p: Picker)
      ensures State() == p
    {
      start, end, randomized, next := p.start, p.end, p.randomized, p.next;
    }

    method NextExcept(avoid: int, draws: seq<Option<nat>>) returns (port: int)
      requires State().Valid() && Drawn(State(), draws)
      modifies this
      ensures State() == old(State()).(next := Pick(old(State()), avoid, draws).1)
      ensures port == Pick(old(State()), avoid, draws).0
    {
      if start == end {
        return start;
      }
      if randomized {
        var size := end - start + 1;
        var attempt := 0;
        assert draws[0..] == draws;
        while attempt < size && draws[attempt].Some?
          invariant 0 <= attempt <= size
          invariant FirstDraw(State(), draws[attempt..], avoid) == FirstDraw(State(), draws, avoid)
        {
          port := start + draws[attempt].value;
          if port != avoid {
            return port;
          }
          attempt := attempt + 1;
        }
        assert FirstDraw(State(), draws, avoid) == None;
        port := start;
        while port <= end
          invariant start <= port <= end + 1
          invariant port > start ==> start == avoid && port == start + 1
        {
          if port != avoid {
            return port;
          }
          port := port + 1;
        }
        return start;
      }
      port := next;
      next := next + 1;
      if next > end {
        next := start;
      }
      if port == avoid {
        port := next;
        next := next + 1;
        if next > end {
          next := start;
        }
      }
    }
  }

  // ----- The port a runner binds to

  datatype BindState = BindState(picker: Picker, current: int, failed: int, hasPort: bool, advance: bool)

  function NewBindState(p: Picker): BindState {
    BindState(p, 0, -1, false, false)
  }

  /** bindPort */
  function Bind(s: BindState, draws: seq<Option<nat>>): (int, BindState)
    requires s.picker.Valid() && Drawn(s.picker, draws)
  {
    if !s.hasPort || s.advance then
      var (port, next) := Pick(s.picker, s.failed, draws);
      (port, BindState(s.picker.(next := next), port, -1, true, false))
    else (s.current, s)
  }

  /** advanceBindPort */
  function Advance(s: BindState): BindState {
    s.(failed := s.current, advance := true)
  }

  /** keepBindPort */
  function Keep(s: BindState, actual: int): BindState {
    if actual > 0 then s.(current := actual, failed := -1, hasPort := true, advance := false)
    else s.(advance := false)
  }

  class BindPorts {
    const picker: PortPicker
    var currentPort: int
    var failedPort: int
    var hasPort: bool
    var advancePort: bool

    ghost function State(): BindState
      reads this, picker
    {
      BindState(picker.State(), currentPort, failedPort, hasPort, advancePort)
    }

    constructor (p: Picker)
      ensures State() == NewBindState(p) && fresh(picker)
    {
      picker := new PortPicker(p);
      currentPort, failedPort, hasPort, advancePort := 0, -1, false, false;
    }

    method BindPort(draws: seq<Option<nat>>) returns (port: int)
      requires State().picker.Valid() && Drawn(State().picker, draws)
      modifies this, picker
      ensures (port, State()) == Bind(old(State()), draws)
    {
      if !hasPort || advancePort {
        currentPort := picker.NextExcept(failedPort, draws);
        failedPort := -1;
        hasPort := true;
        advancePort := false;
      }
      return currentPort;
    }

    method AdvanceBindPort()
      modifies this
      ensures State() == Advance(old(State()))
    {
      failedPort := currentPort;
      advancePort := true;
    }

    method KeepBindPort(actualPort: int)
      modifies this
      ensures State() == Keep(old(State()), actualPort)
    {
      if actualPort > 0 {
        currentPort := actualPort;
        failedPort := -1;
        hasPort := true;
      }
      advancePort := false;
    }
  }

  // ----- The sweep

  /** The ports of k attempts that all fail: bindPort, then advanceBindPort. */
  function Sweep(s: BindState, k: nat): (r: (seq<int>, BindState))
    requires s.picker.Valid() && !s.picker.randomized
    ensures |r.0| == k && r.1.picker == s.picker.(next := r.1.picker.next) && r.1.picker.Valid()
  {
    if k == 0 then ([], s)
    else
      var (earlier, t) := Sweep(s, k - 1);
      var (port, u) := Bind(t, NoDraws(t.picker));
      (earlier + [port], Advance(u))
  }

  /** A sequential picker draws nothing. */
  function NoDraws(p: Picker): (draws: seq<Option<nat>>)
    requires p.Valid()
    ensures Drawn(p, draws)
  {
    seq(p.Size(), _ => None)
  }

  /** The port i places after `first` in the cyclic range. */
  function Cyclic(p: Picker, first: int, i: nat): int
    requires p.Valid()
  {
    p.start + (first - p.start + i) % p.Size()
  }

  lemma CyclicStep(p: Picker, first: int, i: nat)
    requires p.Valid() && p.InRange(first)
    ensures p.InRange(Cyclic(p, first, i))
    ensures Successor(p, Cyclic(p, first, i)) == Cyclic(p, first, i + 1)
    ensures p.Size() >= 2 ==> Cyclic(p, first, i + 1) != Cyclic(p, first, i)
  {
    var n := p.Size();
    var x := first - p.start + i;
    AddRemainder(x, 1, n);
    RemainderIs(x % n + 1, if x % n + 1 == n then 1 else 0, if x % n + 1 == n then 0 else x % n + 1, n);
  }

  /** Failing attempts walk through the range in cyclic order. */
  lemma {:induction false} SweepIsCyclic(s: BindState, k: nat)
    requires s.picker.Valid() && !s.picker.randomized && s.picker.Size() >= 2
    requires !s.hasPort || s.advance
    requires k > 0
    ensures var p := s.picker;
            var (ports, t) := Sweep(s, k);
            && p.InRange(ports[0])
            && (forall i :: 0 <= i < k ==> ports[i] == Cyclic(p, ports[0], i))
            && t.advance && t.failed == ports[k - 1] && t.picker.next == Cyclic(p, ports[0], k)
  {
    var p := s.picker;
    var (ports, t) := Sweep(s, k);
    hide Drawn, NoDraws;
    if k == 1 {
      assert Sweep(s, 0) == ([], s);
      RemainderIs(ports[0] - p.start, 0, ports[0] - p.start, p.Size());
      CyclicStep(p, ports[0], 0);
    } else {
      SweepIsCyclic(s, k - 1);
      var (earlier, u) := Sweep(s, k - 1);
      CyclicStep(p, earlier[0], k - 2);
      CyclicStep(p, earlier[0], k - 1);
      assert ports == earlier + [ports[k - 1]];
    }
  }

  /** So on a sequential range of n >= 2 ports, n failing attempts try every
      port, and none twice. */
  lemma SweepTriesEveryPortOnce(s: BindState, port: int) returns (i: nat)
    requires s.picker.Valid() && !s.picker.randomized && s.picker.Size() >= 2
    requires !s.hasPort || s.advance
    requires s.picker.InRange(port)
    ensures i < s.picker.Size()
    ensures forall j :: 0 <= j < s.picker.Size() ==> (Sweep(s, s.picker.Size()).0[j] == port <==> j == i)
  {
    var p := s.picker;
    var n := p.Size();
    SweepIsCyclic(s, n);
    var ports := Sweep(s, n).0;
    var first := ports[0];
    i := if port >= first then port - first else port - first + n;
    forall j | 0 <= j < n ensures ports[j] == port <==> j == i {
      var x := first - p.start + j;
      RemainderIs(x, if x >= n then 1 else 0, if x >= n then x - n else x, n);
    }
  }

  /** A kept port stays until an advance. */
  lemma KeptPortStays(s: BindState, actual: int, draws: seq<Option<nat>>)
    requires s.picker.Valid() && Drawn(s.picker, draws) && actual > 0
    ensures var t := Keep(s, actual);
            Bind(t, draws) == (actual, t)
  {
  }

  /** Keeping no port cancels an advance: the runner stays on the port it has. */
  lemma NothingKept(s: BindState, actual: int, draws: seq<Option<nat>>)
    requires s.picker.Valid() && Drawn(s.picker, draws) && actual <= 0 && s.hasPort
    ensures Bind(Keep(s, actual), draws) == (s.current, Keep(s, actual))
  {
  }

  /** A fresh runner picks a port, in sequential mode the start of its range, and then
      stays on it. */
  lemma FirstBind(p: Picker, draws: seq<Option<nat>>, later: seq<Option<nat>>)
    requires p.Valid() && Drawn(p, draws) && Drawn(p, later)
    ensures var (port, t) := Bind(NewBindState(p), draws);
            && p.InRange(port) && t.picker.Valid()
            && (!p.randomized || p.start == p.end ==> port == if p.start == p.end then p.start else p.next)
            && t.picker.Size() == p.Size() && Bind(t, later).0 == port
  {
  }

  /** After an advance, a range of at least two ports gives another port, and
      the picker stays valid, in both modes. */
  lemma AdvanceChangesPort(s: BindState, draws: seq<Option<nat>>)
    requires s.picker.Valid() && Drawn(s.picker, draws)
    ensures var (port, t) := Bind(Advance(s), draws);
            && t.picker.Valid() && s.picker.InRange(port)
            && (s.picker.Size() >= 2 ==> port != s.current)
            && !t.advance && t.hasPort && t.current == port
  {
  }
}
