/** The keep-alive connection of a TCP instance: opening it from a list of
    servers, holding it through a session, and reconnecting after the session
    closes. Dials, requests, sessions and the context are oracles. */
module KeepAliveTCP {
  import opened Net
  import opened Rotation
  import opened Wrappers

  const KIND := "http"

  /** What becomes of one server that is tried. `portBusy` says whether the error
      is one of isLocalPortUnavailable, `cancelled` whether the context is. */
  datatype Try =
    | Unresolved
    | DialFailed(portBusy: bool, cancelled: bool)
    | PreflightFailed(portBusy: bool, cancelled: bool)
    | Up
  {
    /** A reconnecting pass goes on to the next server. */
    predicate GoesOn() {
      Unresolved? || PreflightFailed? || (DialFailed? && !portBusy && !cancelled)
    }

    /** The local port is taken or the run is cancelled, so no other server helps. */
    predicate Hopeless() {
      (DialFailed? || PreflightFailed?) && (portBusy || cancelled)
    }
  }

  /** How a session ends: `closed` for errSessionClosed. */
  datatype Session = Session(closed: bool, cancelled: bool)

  /** What the run has done to its connections, which are numbered in the order
      of their dials. */
  datatype Action = Open(conn: nat) | Track(conn: nat) | Untrack(conn: nat) | Close(conn: nat)

  /** Stuck: the oracle holds no further outcome, so the run is still waiting. */
  datatype Connect = Connected(endpoint: ServerEndpoint, conn: nat) | Failed | Stuck
  datatype RunEnd = Finished | Waiting

  /** Why a run has returned or waits. */
  datatype Reason = NoServer | SessionOver | NotReconnected | OracleEnds

  /** The number of dials among some outcomes. */
  function Dials(tries: seq<Try>): nat {
    if tries == [] then 0
    else Dials(tries[..|tries| - 1]) + if tries[|tries| - 1].Unresolved? then 0 else 1
  }

  lemma DialsExtend(tries: seq<Try>, n: nat)
    requires n < |tries|
    ensures Dials(tries[..n + 1]) == Dials(tries[..n]) + if tries[n].Unresolved? then 0 else 1
  {
    assert tries[..n + 1][..n] == tries[..n];
  }

  // ----- The ledger

  function Cycle(c: nat): seq<Action> {
    [Open(c), Track(c), Untrack(c), Close(c)]
  }

  /** Connections 0 to n - 1, one after another, each opened, tracked, untracked
      and closed. */
  function Cycles(n: nat): seq<Action> {
    if n == 0 then [] else Cycles(n - 1) + Cycle(n - 1)
  }

  /** k whole passes through an ordering. */
  function Repeat<T>(order: seq<T>, k: nat): seq<T> {
    if k == 0 then [] else Repeat(order, k - 1) + order
  }

  class TCPRun {
    const endpoints: seq<ServerEndpoint>
    const cursors: ServerCursors
    const tries: seq<Try>
    const sessions: seq<Session>
    const stops: seq<bool> // whether the context is cancelled when a pass starts
    var tryPos: nat
    var sessionPos: nat
    var stopPos: nat
    var nextConn: nat
    var log: seq<Action>
    var targets: seq<ServerEndpoint> // the servers tried, in order
    var dials: nat

    constructor (endpoints: seq<ServerEndpoint>, tries: seq<Try>, sessions: seq<Session>, stops: seq<bool>)
      ensures this.endpoints == endpoints && this.tries == tries && this.sessions == sessions && this.stops == stops
      ensures Oracle() && Balanced() && targets == [] && dials == 0 && fresh(cursors)
    {
      cursors := new ServerCursors();
      this.endpoints, this.tries, this.sessions, this.stops := endpoints, tries, sessions, stops;
      tryPos, sessionPos, stopPos, nextConn, log, targets, dials := 0, 0, 0, 0, [], [], 0;
    }

    /** The oracles are used in order, and each server that was resolved was dialled. */
    predicate Oracle()
      reads `tryPos, `sessionPos, `stopPos, `dials
    {
      && tryPos <= |tries| && sessionPos <= |sessions| && stopPos <= |stops|
      && dials == Dials(tries[..tryPos])
    }

    /** No connection is open. */
    predicate Balanced()
      reads `log, `nextConn
    {
      log == Cycles(nextConn)
    }

    /** Exactly the last connection is open, and it is tracked. */
    predicate Holding(conn: nat)
      reads `log, `nextConn
    {
      nextConn == conn + 1 && log == Cycles(conn) + [Open(conn), Track(conn)]
    }

    /** openTCPKeepAlive, when the dial succeeds. */
    method OpenConn() returns (conn: nat)
      requires Balanced()
      modifies this`log, this`nextConn
      ensures Holding(conn) && conn == old(nextConn) && old(log) <= log
    {
      conn := nextConn;
      log := log + [Open(conn), Track(conn)];
      nextConn := nextConn + 1;
    }

    /** untrack and closeTCP */
    method CloseConn(conn: nat)
      requires Holding(conn)
      modifies this`log
      ensures Balanced() && old(log) <= log
    {
      log := log + [Untrack(conn), Close(conn)];
      assert Cycles(conn) + [Open(conn), Track(conn)] + [Untrack(conn), Close(conn)] == Cycles(conn) + Cycle(conn);
    }

    /** Resolve, dial and preflight one server; on success its connection is held. */
    method TryServer(endpoint: ServerEndpoint) returns (outcome: Try, conn: nat)
      requires Oracle() && Balanced() && tryPos < |tries|
      modifies this`tryPos, this`log, this`nextConn, this`targets, this`dials
      ensures Oracle() && tryPos == old(tryPos) + 1 && outcome == tries[old(tryPos)]
      ensures targets == old(targets) + [endpoint]
      ensures dials == old(dials) + if outcome.Unresolved? then 0 else 1
      ensures old(log) <= log && if outcome.Up? then Holding(conn) else Balanced()
    {
      outcome := tries[tryPos];
      DialsExtend(tries, tryPos);
      hide Dials;
      tryPos := tryPos + 1;
      targets := targets + [endpoint];
      conn := 0;
      if outcome.Unresolved? {
        return;
      }
      dials := dials + 1;
      if outcome.DialFailed? {
        return;
      }
      conn := OpenConn();
      if outcome.PreflightFailed? {
        CloseConn(conn);
      }
    }

    /** openTCPKeepAliveFromServers: one pass, in the order of the cursor. It ends
        with the first success, the first hopeless failure, or the last server. */
    method OpenFromServers() returns (r: Connect)
      requires Oracle() && Balanced()
      modifies this`tryPos, this`log, this`nextConn, this`targets, this`dials, cursors
      ensures Oracle() && old(log) <= log && tryPos >= old(tryPos)
      ensures if r.Connected? then Holding(r.conn) && r.endpoint in endpoints else Balanced()
      ensures dials - old(dials) <= |endpoints|
      ensures var order := Ordered(CursorOf(old(cursors.serverCursor), KIND), endpoints, None).0;
              var tried := tryPos - old(tryPos);
              && tried <= |order| && targets == old(targets) + order[..tried]
              && (forall k :: old(tryPos) <= k < tryPos - 1 ==> !tries[k].Up? && !tries[k].Hopeless())
              && (r.Connected? ==> tried > 0 && tries[tryPos - 1].Up? && r.endpoint == order[tried - 1])
              && (r.Stuck? ==> tryPos == |tries| && tried < |order|)
              && (r.Failed? ==> tried == |order| || (tried > 0 && tries[tryPos - 1].Hopeless()))
              && (!r.Connected? && tried > 0 ==> !tries[tryPos - 1].Up?)
    {
      OrderedMembers(CursorOf(cursors.serverCursor, KIND), endpoints, None);
      if |endpoints| == 0 {
        return Failed;
      }
      var order := cursors.OrderedServerEndpoints(KIND, endpoints, None);
      hide Ordered, Dials;
      for i := 0 to |order|
        invariant Oracle() && Balanced() && old(log) <= log
        invariant targets == old(targets) + order[..i]
        invariant tryPos == old(tryPos) + i && dials - old(dials) <= i
        invariant forall k :: old(tryPos) <= k < tryPos ==> !tries[k].Up? && !tries[k].Hopeless()
      {
        if tryPos == |tries| {
          return Stuck;
        }
        var outcome, conn := TryServer(order[i]);
        match outcome
        case Unresolved =>
        case Up => return Connected(order[i], conn);
        case DialFailed(portBusy, cancelled) =>
          if portBusy || cancelled {
            return Failed;
          }
        case PreflightFailed(portBusy, cancelled) =>
          if portBusy || cancelled {
            return Failed;
          }
      }
      return Failed;
    }

    /** Why a reconnect has given up: the run was cancelled before a pass, the last
        dial was hopeless, or three whole passes were in vain. */
    predicate GaveUp()
      requires Oracle()
      reads `tryPos, `sessionPos, `stopPos, `dials
    {
      || (stopPos > 0 && stops[stopPos - 1])
      || (tryPos > 0 && tries[tryPos - 1].DialFailed? && tries[tryPos - 1].Hopeless())
      || (|endpoints| > 1 && tryPos >= 3 * |endpoints| &&
          forall k :: tryPos - 3 * |endpoints| <= k < tryPos ==> tries[k].GoesOn())
    }

    /** The number of servers in so many whole passes. */
    function InPasses(passes: nat): nat {
      passes * |endpoints|
    }

    lemma OnePassMore(passes: nat)
      ensures InPasses(0) == 0 && InPasses(passes + 1) == InPasses(passes) + |endpoints|
      ensures passes > 0 ==> InPasses(passes) == InPasses(passes - 1) + |endpoints|
    {
    }

    /** Since `from`, so many whole passes through an ordering were made and then some
        servers of another one were tried. */
    predicate Walked(from: seq<ServerEndpoint>, order: seq<ServerEndpoint>, passes: nat, tried: nat)
      reads `targets
    {
      tried <= |order| && targets == from + Repeat(order, passes) + order[..tried]
    }

    lemma WalkedOn(from: seq<ServerEndpoint>, order: seq<ServerEndpoint>, passes: nat, before: seq<ServerEndpoint>,
                   tried: nat)
      requires tried <= |order| && before == from + Repeat(order, passes) + order[..0]
      requires targets == before + order[..tried]
      ensures Walked(from, order, passes, tried)
      ensures tried == |order| ==> Walked(from, order, passes + 1, 0)
    {
      assert order[..|order|] == order;
    }

    /** How the reasons come about: `passes` passes since position `from` were in vain. */
    lemma GaveUpInVain(from: nat, passes: nat)
      requires Oracle() && |endpoints| > 1 && passes >= 3 && tryPos == from + InPasses(passes)
      requires forall k :: from <= k < tryPos ==> tries[k].GoesOn()
      ensures GaveUp()
    {
      assert passes * |endpoints| >= 3 * |endpoints|;
    }

    lemma GaveUpAtOnce()
      requires Oracle()
      requires (stopPos > 0 && stops[stopPos - 1]) ||
               (tryPos > 0 && tries[tryPos - 1].DialFailed? && tries[tryPos - 1].Hopeless())
      ensures GaveUp()
    {
    }

    /** reconnectTCPKeepAliveForProbe: passes through the servers after the one
        that died. `passes` counts them, the last of which tried `tried` servers. */
    method Reconnect(current: ServerEndpoint) returns (r: Connect, passes: nat, tried: nat)
      requires Oracle() && Balanced()
      modifies this`tryPos, this`stopPos, this`log, this`nextConn, this`targets, this`dials, cursors
      ensures Oracle() && stopPos >= old(stopPos) && tryPos >= old(tryPos) && old(log) <= log
      ensures r.Connected? ==> stopPos > old(stopPos)
      ensures if r.Connected? then Holding(r.conn) && r.endpoint in endpoints else Balanced()
      ensures |endpoints| >= 2 ==> passes <= 3
      ensures dials - old(dials) <= InPasses(passes)
      ensures IndexOfEndpoint(endpoints, current) < |endpoints| ==>
        var order := Ordered(0, endpoints, Some(current)).0;
        Walked(old(targets), order, if passes == 0 then 0 else passes - 1, tried)
      ensures tryPos - old(tryPos) == if passes == 0 then 0 else InPasses(passes - 1) + tried
      ensures forall k :: old(tryPos) <= k < tryPos - 1 ==> tries[k].GoesOn()
      ensures forall k :: old(stopPos) <= k < stopPos - 1 ==> !stops[k]
      ensures r.Connected? ==> tryPos > old(tryPos) && tries[tryPos - 1].Up? && !stops[stopPos - 1]
      ensures r.Failed? ==> GaveUp() && stopPos > old(stopPos)
      ensures r.Stuck? ==> tryPos == |tries| || stopPos == |stops|
    {
      hide Ordered, IndexOfEndpoint, Repeat, Dials, Balanced, Holding, GaveUp, InPasses;
      passes, tried := 0, 0;
      ghost var known := IndexOfEndpoint(endpoints, current) < |endpoints|;
      ghost var order := Ordered(0, endpoints, Some(current)).0;
      OrderedLength(0, endpoints, Some(current));
      WalkStarts(order);
      hide Walked;
      OnePassMore(0);
      while true
        invariant Oracle() && Balanced() && stopPos >= old(stopPos) && old(log) <= log
        invariant |endpoints| >= 2 ==> passes <= 2
        invariant tryPos == old(tryPos) + InPasses(passes)
        invariant dials - old(dials) <= InPasses(passes)
        invariant tried == if passes == 0 then 0 else |endpoints|
        invariant known ==> Walked(old(targets), order, passes, 0)
        invariant known && passes > 0 ==> Walked(old(targets), order, passes - 1, tried)
        invariant forall k :: old(tryPos) <= k < tryPos ==> tries[k].GoesOn()
        invariant forall k :: old(stopPos) <= k < stopPos ==> !stops[k]
        decreases |stops| - stopPos
      {
        OnePassMore(passes);
        if stopPos == |stops| {
          return Stuck, passes, tried;
        }
        var stopped := stops[stopPos];
        stopPos := stopPos + 1;
        if stopped {
          GaveUpAtOnce();
          return Failed, passes, tried;
        }
        passes := passes + 1;
        var done;
        ghost var before := targets;
        WalkedSoFar(old(targets), order, passes - 1, known);
        done, r, tried := Pass(current, order, known);
        if known {
          WalkedOn(old(targets), order, passes - 1, before, tried);
        }
        if done {
          if r.Failed? {
            GaveUpAtOnce();
          }
          return r, passes, tried;
        }
        if passes >= 3 && |endpoints| > 1 {
          GaveUpInVain(old(tryPos), passes);
          return Failed, passes, tried;
        }
      }
    }

    lemma WalkStarts(order: seq<ServerEndpoint>)
      ensures Walked(targets, order, 0, 0)
    {
      assert targets + [] + order[..0] == targets;
    }

    lemma WalkedSoFar(from: seq<ServerEndpoint>, order: seq<ServerEndpoint>, passes: nat, known: bool)
      requires known ==> Walked(from, order, passes, 0)
      ensures known ==> targets == from + Repeat(order, passes) + order[..0]
    {
    }

    /** One pass: not `done` when every server was tried in vain. */
    method Pass(current: ServerEndpoint, ghost order: seq<ServerEndpoint>, ghost known: bool)
      returns (done: bool, r: Connect, tried: nat)
      requires Oracle() && Balanced()
      requires known == (IndexOfEndpoint(endpoints, current) < |endpoints|) &&
               order == Ordered(0, endpoints, Some(current)).0
      modifies this`tryPos, this`log, this`nextConn, this`targets, this`dials, cursors
      ensures old(log) <= log
      ensures Oracle() && tried <= |endpoints| && (!done ==> tried == |endpoints| && r.Failed?)
      ensures if r.Connected? then done && Holding(r.conn) && r.endpoint in endpoints else Balanced()
      ensures tryPos >= old(tryPos) && dials - old(dials) <= |endpoints|
      ensures known ==> tried <= |order| && targets == old(targets) + order[..tried]
      ensures |order| == |endpoints|
      ensures tryPos == old(tryPos) + tried && forall k :: old(tryPos) <= k < tryPos - 1 ==> tries[k].GoesOn()
      ensures !done && tried > 0 ==> tries[tryPos - 1].GoesOn()
      ensures done ==>
        || (r.Stuck? && tryPos == |tries| && (tried > 0 ==> tries[tryPos - 1].GoesOn()))
        || (r.Connected? && tried > 0 && tries[tryPos - 1].Up?)
        || (r.Failed? && tried > 0 && tries[tryPos - 1].DialFailed? &&
            (tries[tryPos - 1].portBusy || tries[tryPos - 1].cancelled))
      ensures known && r.Connected? ==> r.endpoint == order[tried - 1]
    {
      hide Ordered, IndexOfEndpoint, Balanced, Holding, Dials;
      var servers := cursors.OrderedServerEndpoints(KIND, endpoints, Some(current));
      OrderedMembers(CursorOf(old(cursors.serverCursor), KIND), endpoints, Some(current));
      OrderedMembers(0, endpoints, Some(current));
      if known {
        KnownServerOrders(CursorOf(old(cursors.serverCursor), KIND), endpoints, current);
      }
      assert known ==> servers == order;
      for i := 0 to |servers|
        invariant Oracle() && Balanced() && old(log) <= log
        invariant targets == old(targets) + servers[..i]
        invariant tryPos == old(tryPos) + i && dials - old(dials) <= i
        invariant forall k :: old(tryPos) <= k < tryPos ==> tries[k].GoesOn()
      {
        if tryPos == |tries| {
          return true, Stuck, i;
        }
        var outcome, conn := TryServer(servers[i]);
        match outcome
        case Unresolved =>
        case PreflightFailed(_, _) =>
        case Up => return true, Connected(servers[i], conn), i + 1;
        case DialFailed(portBusy, cancelled) =>
          if cancelled || portBusy {
            return true, Failed, i + 1;
          }
      }
      return false, Failed, |servers|;
    }

    /** The sessions used since position `from` were all closed by their servers, except
        perhaps the last. */
    predicate ClosedBefore(from: nat)
      requires Oracle()
      reads `tryPos, `sessionPos, `stopPos, `dials
    {
      forall k :: from <= k < sessionPos - 1 ==> sessions[k] == Session(true, false)
    }

    /** Why the sessions have come to an end. */
    predicate SessionsEnd(reason: Reason)
      requires Oracle()
      reads `tryPos, `sessionPos, `stopPos, `dials
    {
      match reason
      case NoServer => false
      case SessionOver => sessionPos > 0 && sessions[sessionPos - 1] != Session(true, false)
      case NotReconnected => sessionPos > 0 && sessions[sessionPos - 1] == Session(true, false) && GaveUp()
      case OracleEnds => tryPos == |tries| || sessionPos == |sessions| || stopPos == |stops|
    }

    /** runTCP. A run returns because no server could be reached at first, because a
        session ended in another way than being closed by the server, or because a
        reconnect gave up; every earlier session was closed and reconnected. */
    method Run() returns (end: RunEnd, reason: Reason)
      requires Oracle() && Balanced()
      modifies this`tryPos, this`sessionPos, this`stopPos, this`log, this`nextConn, this`targets, this`dials, cursors
      ensures Oracle() && old(log) <= log && sessionPos >= old(sessionPos) && tryPos >= old(tryPos)
      ensures end.Finished? ==> Balanced()
      ensures end.Waiting? ==> Balanced() || exists conn :: Holding(conn)
      ensures end.Waiting? <==> reason.OracleEnds?
      ensures ClosedBefore(old(sessionPos))
      ensures if sessionPos == old(sessionPos) then !reason.SessionOver? && !reason.NotReconnected?
              else SessionsEnd(reason)
      ensures reason.NoServer? ==>
        && (tryPos == old(tryPos) + |endpoints| || (tryPos > old(tryPos) && tries[tryPos - 1].Hopeless()))
        && forall k :: old(tryPos) <= k < tryPos ==> !tries[k].Up?
      ensures reason.OracleEnds? ==> tryPos == |tries| || sessionPos == |sessions| || stopPos == |stops|
    {
      OrderedLength(CursorOf(cursors.serverCursor, KIND), endpoints, None);
      hide Ordered, Dials, Balanced, Holding, GaveUp, CursorOf;
      var first := OpenFromServers();
      if first.Failed? {
        return Finished, NoServer;
      }
      if first.Stuck? {
        return Waiting, OracleEnds;
      }
      end, reason := RunSessions(first.endpoint, first.conn);
    }

    /** Its loop, which is entered with a connection. */
    method RunSessions(endpoint: ServerEndpoint, conn: nat) returns (end: RunEnd, reason: Reason)
      requires Oracle() && Holding(conn)
      modifies this`tryPos, this`sessionPos, this`stopPos, this`log, this`nextConn, this`targets, this`dials, cursors
      ensures Oracle() && old(log) <= log && sessionPos >= old(sessionPos) && tryPos >= old(tryPos)
      ensures end.Finished? ==> Balanced()
      ensures end.Waiting? ==> Balanced() || exists conn :: Holding(conn)
      ensures end.Waiting? <==> reason.OracleEnds?
      ensures ClosedBefore(old(sessionPos)) && SessionsEnd(reason)
      ensures sessionPos > old(sessionPos) || (reason.OracleEnds? && sessionPos == |sessions|)
    {
      hide Ordered, Dials, Balanced, Holding, GaveUp, CursorOf, IndexOfEndpoint, Repeat;
      var keepEndpoint, keepConn := endpoint, conn;
      while true
        invariant Oracle() && Holding(keepConn) && old(log) <= log
        invariant sessionPos >= old(sessionPos) && tryPos >= old(tryPos)
        invariant forall k :: old(sessionPos) <= k < sessionPos ==> sessions[k] == Session(true, false)
        decreases |stops| - stopPos
      {
        if sessionPos == |sessions| {
          return Waiting, OracleEnds;
        }
        var session := sessions[sessionPos];
        sessionPos := sessionPos + 1;
        CloseConn(keepConn);
        if !session.closed || session.cancelled {
          return Finished, SessionOver;
        }
        var next, passes, tried := Reconnect(keepEndpoint);
        if next.Failed? {
          return Finished, NotReconnected;
        }
        if next.Stuck? {
          return Waiting, OracleEnds;
        }
        keepEndpoint, keepConn := next.endpoint, next.conn;
      }
    }
  }

  /** After a server of the list, the cursor does not matter. */
  lemma KnownServerOrders(cursor: nat, endpoints: seq<ServerEndpoint>, current: ServerEndpoint)
    requires IndexOfEndpoint(endpoints, current) < |endpoints|
    ensures Ordered(cursor, endpoints, Some(current)).0 == Ordered(0, endpoints, Some(current)).0
  {
  }

  lemma OrderedLength(cursor: nat, endpoints: seq<ServerEndpoint>, after: Option<ServerEndpoint>)
    ensures |Ordered(cursor, endpoints, after).0| == |endpoints|
  {
  }

  lemma OrderedMembers(cursor: nat, endpoints: seq<ServerEndpoint>, after: Option<ServerEndpoint>)
    ensures var order := Ordered(cursor, endpoints, after).0;
            |order| == |endpoints| && forall i :: 0 <= i < |order| ==> order[i] in endpoints
  {
  }

  // ----- What the ledger says

  lemma {:induction false} CyclesAt(n: nat, c: nat)
    requires c < n
    ensures |Cycles(n)| == 4 * n
    ensures Cycles(n)[4 * c..4 * c + 4] == Cycle(c)
  {
    CyclesLength(n);
    if c < n - 1 {
      CyclesLength(n - 1);
      CyclesAt(n - 1, c);
      assert Cycles(n)[4 * c..4 * c + 4] == Cycles(n - 1)[4 * c..4 * c + 4];
    }
  }

  lemma {:induction false} CyclesLength(n: nat)
    ensures |Cycles(n)| == 4 * n
  {
    if n == 0 {
    } else {
      CyclesLength(n - 1);
    }
  }

  /** The connections that are open after some actions. */
  function OpenConns(log: seq<Action>): set<nat> {
    if log == [] then {}
    else
      var before := OpenConns(log[..|log| - 1]);
      match log[|log| - 1]
      case Open(c) => before + {c}
      case Close(c) => before - {c}
      case _ => before
  }

  /** Through one cycle, starting with nothing open. */
  lemma OneCycle(log: seq<Action>, m: nat, c: nat, k: nat)
    requires m + 4 <= |log| && log[m..m + 4] == Cycle(c) && OpenConns(log[..m]) == {}
    requires m <= k <= m + 4
    ensures |OpenConns(log[..k])| <= 1 && (k == m + 4 ==> OpenConns(log[..k]) == {})
  {
    assert log[m] == Cycle(c)[0] && log[m + 1] == Cycle(c)[1] && log[m + 2] == Cycle(c)[2] && log[m + 3] == Cycle(c)[3];
    OneMore(log, m);
    OneMore(log, m + 1);
    OneMore(log, m + 2);
    OneMore(log, m + 3);
    hide OpenConns;
  }

  /** At no time is more than one connection open. A run that holds connection c
      has done a prefix of c + 1 cycles, so this covers it too. */
  lemma {:induction false} AtMostOneOpen(n: nat, k: nat)
    requires k <= |Cycles(n)|
    ensures |OpenConns(Cycles(n)[..k])| <= 1
    ensures k == |Cycles(n)| ==> OpenConns(Cycles(n)[..k]) == {}
  {
    if n == 0 {
      assert Cycles(n)[..k] == [];
    } else {
      CyclesLength(n);
      CyclesLength(n - 1);
      hide OpenConns;
      var m := 4 * (n - 1);
      if k <= m {
        AtMostOneOpen(n - 1, k);
        assert Cycles(n)[..k] == Cycles(n - 1)[..k];
      } else {
        AtMostOneOpen(n - 1, m);
        assert Cycles(n)[..m] == Cycles(n - 1)[..m];
        CyclesAt(n, n - 1);
        OneCycle(Cycles(n), m, n - 1, k);
      }
    }
  }

  lemma HoldingIsPrefix(c: nat)
    ensures |Cycles(c + 1)| == 4 * c + 4
    ensures Cycles(c) + [Open(c), Track(c)] == Cycles(c + 1)[..4 * c + 2]
  {
    CyclesLength(c);
  }

  lemma OneMore(log: seq<Action>, k: nat)
    requires k < |log|
    ensures OpenConns(log[..k + 1]) ==
            match log[k]
            case Open(c) => OpenConns(log[..k]) + {c}
            case Close(c) => OpenConns(log[..k]) - {c}
            case _ => OpenConns(log[..k])
  {
    assert log[..k + 1][..k] == log[..k];
  }

  /** Every connection is opened, tracked, untracked and closed exactly once, in
      this order. */
  lemma EachActionOnce(n: nat, c: nat, a: Action, i: nat)
    requires c < n && a in Cycle(c) && i < |Cycles(n)|
    ensures Cycles(n)[i] == a <==>
            i == 4 * c + match a case Open(_) => 0 case Track(_) => 1 case Untrack(_) => 2 case Close(_) => 3
  {
    CyclesAt(n, c);
    var d := i / 4;
    CyclesAt(n, d);
    assert Cycles(n)[i] == Cycles(n)[4 * d..4 * d + 4][i - 4 * d];
    assert Cycles(n)[4 * c..4 * c + 4][0] == Cycles(n)[4 * c];
  }
}
