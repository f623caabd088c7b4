/** One UDP socket shared by QUIC and STUN: sharedUDPConn.ReadFrom diverts STUN
    responses to a queue, and stunUDPSharedFanout matches them to its requests. */
module Demux {
  import opened Arith
  import opened Net
  import opened Wrappers
  import opened Sequences
  import opened Stun

  const BUFFER_SIZE := 2048
  const QUEUE_SIZE := 8

  /** A datagram and its source; `taken` is how many queued responses the probe
      goroutine has received since the previous datagram. */
  datatype Arrival = Arrival(data: seq<byte>, source: Option<UDPAddr>, taken: nat)

  /** What the socket puts into the read buffer. */
  function Clip(data: seq<byte>): seq<byte> {
    if |data| > BUFFER_SIZE then data[..BUFFER_SIZE] else data
  }

  lemma ClipMeans(data: seq<byte>)
    ensures Clip(data) <= data && |Clip(data)| == if |data| > 2048 then 2048 else |data|
  {
  }

  predicate Diverted(a: Arrival) {
    Parse(Clip(a.data)).Ok?
  }

  function Response(a: Arrival): StunResult
    requires Diverted(a)
  {
    Parse(Clip(a.data)).value.(source := a.source)
  }

  lemma DivertedIff(a: Arrival, parsed: Result<StunResult, StunError>)
    requires parsed == Parse(Clip(a.data))
    ensures Diverted(a) <==> parsed.Ok?
    ensures parsed.Ok? ==> Response(a) == parsed.value.(source := a.source)
  {
  }

  function FirstForQUIC(arrivals: seq<Arrival>): (k: nat)
    ensures k <= |arrivals|
    ensures forall i :: 0 <= i < k ==> Diverted(arrivals[i])
    ensures k < |arrivals| ==> !Diverted(arrivals[k])
  {
    hide Diverted;
    if arrivals == [] || !Diverted(arrivals[0]) then 0 else 1 + FirstForQUIC(arrivals[1..])
  }

  function Drain(queue: seq<StunResult>, n: nat): seq<StunResult> {
    if n <= |queue| then queue[n..] else []
  }

  /** A non-blocking send on the response channel. */
  function Offer(queue: seq<StunResult>, r: StunResult): seq<StunResult> {
    if |queue| < QUEUE_SIZE then queue + [r] else queue
  }

  function QueueAfter(queue: seq<StunResult>, arrivals: seq<Arrival>): seq<StunResult> {
    if arrivals == [] then queue
    else
      var a := arrivals[|arrivals| - 1];
      var drained := Drain(QueueAfter(queue, arrivals[..|arrivals| - 1]), a.taken);
      if Diverted(a) then Offer(drained, Response(a)) else drained
  }

  lemma QueueAtFirst(queue: seq<StunResult>)
    ensures QueueAfter(queue, []) == queue
  {
  }

  lemma QueueStep(queue: seq<StunResult>, arrivals: seq<Arrival>, i: nat)
    requires i < |arrivals|
    ensures var drained := Drain(QueueAfter(queue, arrivals[..i]), arrivals[i].taken);
            QueueAfter(queue, arrivals[..i + 1]) ==
            if Diverted(arrivals[i]) then Offer(drained, Response(arrivals[i])) else drained
  {
    hide Diverted, Response, Offer, Drain;
    assert arrivals[..i + 1][..i] == arrivals[..i];
  }

  lemma FirstIs(arrivals: seq<Arrival>, k: nat)
    requires k <= |arrivals|
    requires forall i :: 0 <= i < k ==> Diverted(arrivals[i])
    requires k < |arrivals| ==> !Diverted(arrivals[k])
    ensures FirstForQUIC(arrivals) == k
  {
  }

  /** The built-in copy. */
  method CopyInto(b: array<byte>, packet: seq<byte>)
    requires |packet| <= b.Length
    modifies b
    ensures b[..|packet|] == packet && b[|packet|..] == old(b[|packet|..])
  {
    for j := 0 to |packet|
      invariant b[..j] == packet[..j] && b[|packet|..] == old(b[|packet|..])
    {
      b[j] := packet[j];
    }
  }

  /** Hand a packet over in the buffer of the reader, cut to its size. */
  method Deliver(b: array<byte>, packet: seq<byte>) returns (n: nat)
    modifies b
    ensures n == if |packet| > b.Length then b.Length else |packet|
    ensures b[..n] == packet[..n] && b[n..] == old(b[n..])
  {
    n := |packet|;
    if n > b.Length {
      n := b.Length;
    }
    CopyInto(b, packet[..n]);
  }

  lemma NextArrival(all: seq<Arrival>, i: nat)
    requires i < |all|
    ensures all[i..] != [] && all[i..][0] == all[i] && all[i..][1..] == all[i + 1..]
  {
  }

  class SharedUDPConn {
    var arrivals: seq<Arrival> // what the socket has yet to deliver
    var stunResponses: seq<StunResult> // the channel, oldest response first

    constructor (arrivals: seq<Arrival>)
      ensures this.arrivals == arrivals && stunResponses == []
    {
      this.arrivals, stunResponses := arrivals, [];
    }

    /** ReadFrom: None when the socket is closed before a packet for QUIC comes. */
    method ReadFrom(b: array<byte>) returns (r: Option<(nat, Option<UDPAddr>)>)
      modifies this, b
      ensures var all := old(arrivals);
              var k := FirstForQUIC(all);
              if k < |all| then
                var packet := Clip(all[k].data);
                var n := if |packet| > b.Length then b.Length else |packet|;
                && r == Some((n, all[k].source))
                && b[..n] == packet[..n] && b[n..] == old(b[n..])
                && arrivals == all[k + 1..]
                && stunResponses == QueueAfter(old(stunResponses), all[..k + 1])
              else
                && r == None && b[..] == old(b[..])
                && arrivals == [] && stunResponses == QueueAfter(old(stunResponses), all)
    {
      hide Parse, Diverted, Response, FirstForQUIC, QueueAfter, Clip, Drain;
      QueueAtFirst(stunResponses);
      ghost var all := arrivals;
      ghost var i := 0;
      assert all[..0] == [];
      while true
        invariant i <= |all| && arrivals == all[i..]
        invariant forall j :: 0 <= j < i ==> Diverted(all[j])
        invariant stunResponses == QueueAfter(old(stunResponses), all[..i])
        invariant b[..] == old(b[..])
        decreases |arrivals|
      {
        if arrivals == [] {
          assert all[..i] == all;
          FirstIs(all, i);
          return None;
        }
        NextArrival(all, i);
        var arrival := arrivals[0];
        arrivals := arrivals[1..];
        QueueStep(old(stunResponses), all, i);
        stunResponses := Drain(stunResponses, arrival.taken);
        var packet := Clip(arrival.data);
        var parsed := ParseSTUN(packet);
        DivertedIff(arrival, parsed);
        if parsed.Ok? {
          var result := parsed.value.(source := arrival.source);
          if |stunResponses| < QUEUE_SIZE {
            stunResponses := stunResponses + [result];
          }
          i := i + 1;
          continue;
        }
        FirstIs(all, i);
        var n := Deliver(b, packet);
        return Some((n, arrival.source));
      }
    }
  }

  // ----- Whole packet sequences

  /** The packets that successive calls of ReadFrom return. */
  function Reads(arrivals: seq<Arrival>): seq<Arrival> {
    var k := FirstForQUIC(arrivals);
    if k == |arrivals| then [] else [arrivals[k]] + Reads(arrivals[k + 1..])
  }

  function ForQUIC(arrivals: seq<Arrival>): seq<Arrival> {
    if arrivals == [] then []
    else (if Diverted(arrivals[0]) then [] else [arrivals[0]]) + ForQUIC(arrivals[1..])
  }

  /** The QUIC reader receives exactly the packets the STUN parser rejects, in order. */
  lemma {:induction false} ReadsAreForQUIC(arrivals: seq<Arrival>)
    ensures Reads(arrivals) == ForQUIC(arrivals)
  {
    hide Diverted, FirstForQUIC, ForQUIC;
    var k := FirstForQUIC(arrivals);
    NextForQUIC(arrivals, k);
    if k < |arrivals| {
      ReadsAreForQUIC(arrivals[k + 1..]);
    }
  }

  lemma {:induction false} NextForQUIC(arrivals: seq<Arrival>, k: nat)
    requires k <= |arrivals| && forall i :: 0 <= i < k ==> Diverted(arrivals[i])
    requires k < |arrivals| ==> !Diverted(arrivals[k])
    ensures ForQUIC(arrivals) == if k == |arrivals| then [] else [arrivals[k]] + ForQUIC(arrivals[k + 1..])
  {
    hide Diverted;
    if k == 0 {
    } else {
      var rest := arrivals[1..];
      NextForQUIC(rest, k - 1);
      if k < |arrivals| {
        assert rest[k - 1] == arrivals[k] && rest[k..] == arrivals[k + 1..];
      }
    }
  }

  /** In particular it receives every packet that has the QUIC fixed bit. */
  lemma {:induction false} QUICPacketsArrive(arrivals: seq<Arrival>, k: nat)
    requires k < |arrivals| && arrivals[k].data != [] && arrivals[k].data[0] & 0x40 != 0
    ensures arrivals[k] in Reads(arrivals)
  {
    hide Parse;
    QUICPacketsRejected(Clip(arrivals[k].data));
    ReadsAreForQUIC(arrivals);
    RejectedIsForQUIC(arrivals, k);
  }

  lemma {:induction false} RejectedIsForQUIC(arrivals: seq<Arrival>, k: nat)
    requires k < |arrivals| && !Diverted(arrivals[k])
    ensures arrivals[k] in ForQUIC(arrivals)
  {
    if k == 0 {
    } else {
      RejectedIsForQUIC(arrivals[1..], k - 1);
    }
  }

  /** All responses the parser recognises, in order of arrival. */
  function Responses(arrivals: seq<Arrival>): seq<StunResult> {
    if arrivals == [] then []
    else
      var a := arrivals[|arrivals| - 1];
      Responses(arrivals[..|arrivals| - 1]) + if Diverted(a) then [Response(a)] else []
  }

  /** What the probe goroutine has received. */
  function Received(arrivals: seq<Arrival>): seq<StunResult> {
    if arrivals == [] then []
    else
      var before := arrivals[..|arrivals| - 1];
      var queue := QueueAfter([], before);
      var n := arrivals[|arrivals| - 1].taken;
      Received(before) + if n <= |queue| then queue[..n] else queue
  }

  /** The queue holds at most 8 responses, and what was received followed by
      what is queued is an in-order part of the responses that arrived. */
  lemma {:induction false} QueueKeepsOrder(arrivals: seq<Arrival>)
    ensures |QueueAfter([], arrivals)| <= 8
    ensures Subsequence(Received(arrivals) + QueueAfter([], arrivals), Responses(arrivals))
  {
    hide Diverted, Response, Drain, Offer, Subsequence;
    if arrivals == [] {
      SubsequenceEmpty<StunResult>(Responses(arrivals));
      assert Received(arrivals) + QueueAfter([], arrivals) == [];
    } else {
      var before, a := arrivals[..|arrivals| - 1], arrivals[|arrivals| - 1];
      QueueKeepsOrder(before);
      var arrived := if Diverted(a) then Some(Response(a)) else None;
      TakeAndOffer(Received(before), QueueAfter([], before), Responses(before), a.taken, arrived);
      assert arrived.None? ==> Responses(arrivals) == Responses(before);
    }
  }

  /** When arrival k comes, fewer than 8 responses are queued. */
  predicate HasRoom(arrivals: seq<Arrival>, k: nat)
    requires k < |arrivals|
  {
    |Drain(QueueAfter([], arrivals[..k]), arrivals[k].taken)| < 8
  }

  /** A response is lost only if 8 are queued when it comes: if there is always room,
      the probe goroutine gets every response, in order. */
  lemma {:induction false} NothingLostWithRoom(arrivals: seq<Arrival>)
    requires forall k :: 0 <= k < |arrivals| && Diverted(arrivals[k]) ==> HasRoom(arrivals, k)
    ensures Received(arrivals) + QueueAfter([], arrivals) == Responses(arrivals)
  {
    hide Diverted, Response;
    if arrivals == [] {
    } else {
      var n := |arrivals| - 1;
      var before, a := arrivals[..n], arrivals[n];
      forall k | 0 <= k < n && Diverted(before[k]) ensures HasRoom(before, k) {
        assert HasRoom(arrivals, k) && before[..k] == arrivals[..k];
      }
      NothingLostWithRoom(before);
      var queue := QueueAfter([], before);
      assert Diverted(a) ==> HasRoom(arrivals, n);
      assert Received(arrivals) + Drain(queue, a.taken) == Received(before) + queue;
      if Diverted(a) {
        assert QueueAfter([], arrivals) == Drain(queue, a.taken) + [Response(a)];
      }
    }
  }

  /** And one that finds 8 queued is dropped, not one of those. */
  lemma FullQueueStays(arrivals: seq<Arrival>, k: nat)
    requires k < |arrivals| && Diverted(arrivals[k]) && !HasRoom(arrivals, k)
    ensures QueueAfter([], arrivals[..k + 1]) == Drain(QueueAfter([], arrivals[..k]), arrivals[k].taken)
  {
    hide Diverted, Response;
    QueueStep([], arrivals, k);
  }

  /** The receiver takes some responses, and then one may be offered. */
  lemma TakeAndOffer(received: seq<StunResult>, queue: seq<StunResult>, responses: seq<StunResult>,
                     taken: nat, arrived: Option<StunResult>)
    requires |queue| <= QUEUE_SIZE && Subsequence(received + queue, responses)
    ensures var received' := received + if taken <= |queue| then queue[..taken] else queue;
            var drained := Drain(queue, taken);
            match arrived
            case None => |drained| <= QUEUE_SIZE && Subsequence(received' + drained, responses)
            case Some(r) =>
              |Offer(drained, r)| <= QUEUE_SIZE && Subsequence(received' + Offer(drained, r), responses + [r])
  {
    hide Subsequence;
    var received' := received + if taken <= |queue| then queue[..taken] else queue;
    var drained := Drain(queue, taken);
    assert received' + drained == received + queue;
    match arrived {
      case None =>
      case Some(r) =>
        SubsequenceAppend(received + queue, responses, r);
        assert received' + (drained + [r]) == (received + queue) + [r];
    }
  }

  // ----- The fan-out

  datatype Request = Request(endpoint: ServerEndpoint, addr: Option<UDPAddr>, tid: seq<byte>)

  /** What one round meets: a cancelled context at its start, the outcome of
      each send, and then what the wait for responses sees. */
  datatype Send = Sent | SendFailed(cancelled: bool)
  datatype Wait = Arrived | ChannelClosed | ContextDone | TimerFired
  datatype Round = Round(cancelled: bool, sends: seq<Send>, waits: seq<Wait>)

  datatype Fanout = Answered(result: StunResult, endpoint: ServerEndpoint) | NoAnswer | Cancelled | StillWaiting

  /** stunSourceMatches: an unknown side matches anything. */
  predicate SourceMatches(source: Option<UDPAddr>, expected: Option<UDPAddr>) {
    source.None? || expected.None? ||
    (source.value.port == expected.value.port && IPEqual(source.value.ip, expected.value.ip))
  }

  lemma SourceMatchesMeans(source: Option<UDPAddr>, expected: Option<UDPAddr>)
    ensures SourceMatches(source, expected) <==>
            (source.Some? && expected.Some? ==>
               source.value.port == expected.value.port && Canonical(source.value.ip) == Canonical(expected.value.ip))
  {
    if source.Some? && expected.Some? {
      IPEqualIffCanonical(source.value.ip, expected.value.ip);
    }
  }

  /** byTID: of two requests with one ID the later stays. */
  function ByTID(requests: seq<Request>): map<seq<byte>, Request> {
    if requests == [] then map[]
    else
      var last := requests[|requests| - 1];
      ByTID(requests[..|requests| - 1])[last.tid := last]
  }

  predicate Accepts(requests: seq<Request>, r: StunResult) {
    r.tid in ByTID(requests) && SourceMatches(r.source, ByTID(requests)[r.tid].addr)
  }

  /** request i is the last one with its transaction ID. */
  ghost predicate LastWithID(requests: seq<Request>, i: nat, tid: seq<byte>) {
    i < |requests| && requests[i].tid == tid && forall j :: i < j < |requests| ==> requests[j].tid != tid
  }

  lemma {:induction false} ByTIDIsLast(requests: seq<Request>, tid: seq<byte>) returns (i: nat)
    ensures tid in ByTID(requests) ==> LastWithID(requests, i, tid) && ByTID(requests)[tid] == requests[i]
    ensures tid !in ByTID(requests) ==> forall j :: 0 <= j < |requests| ==> requests[j].tid != tid
  {
    i := 0;
    if requests == [] {
    } else {
      var n := |requests| - 1;
      i := ByTIDIsLast(requests[..n], tid);
      if requests[n].tid == tid {
        i := n;
      }
    }
  }

  /** The sends go through the n requests, round after round. */
  predicate InTurn(writes: seq<nat>, n: nat) {
    if n == 0 then writes == [] else forall k :: 0 <= k < |writes| ==> writes[k] == k % n
  }

  /** The table of requests by ID. */
  method Index(requests: seq<Request>) returns (byTID: map<seq<byte>, Request>)
    ensures byTID == ByTID(requests)
  {
    byTID := map[];
    for i := 0 to |requests|
      invariant byTID == ByTID(requests[..i])
    {
      assert requests[..i + 1][..i] == requests[..i];
      byTID := byTID[requests[i].tid := requests[i]];
    }
    assert requests[..|requests|] == requests;
  }

  function CountSent(sends: seq<Send>): nat {
    if sends == [] then 0
    else CountSent(sends[..|sends| - 1]) + if sends[|sends| - 1].Sent? then 1 else 0
  }

  /** One round of sends, appended to `before`. */
  method SendRound(requests: seq<Request>, sends: seq<Send>, ghost attempt: nat, before: seq<nat>)
    returns (cancelled: bool, sent: nat, writes: seq<nat>)
    requires requests != [] && |sends| == |requests|
    requires |before| == attempt * |requests| && InTurn(before, |requests|)
    ensures InTurn(writes, |requests|) && |writes| <= |before| + |requests|
    ensures before <= writes
    ensures !cancelled ==> |writes| == |before| + |requests| && sent == CountSent(sends)
    ensures cancelled <==> SendFailed(true) in sends
    ensures cancelled ==>
              var i := |writes| - |before| - 1; 0 <= i < |sends| && SendFailed(true) !in sends[..i]
  {
    hide InTurn;
    writes, sent := before, 0;
    for i := 0 to |requests|
      invariant |writes| == attempt * |requests| + i && InTurn(writes, |requests|)
      invariant before <= writes && SendFailed(true) !in sends[..i]
      invariant sent == CountSent(sends[..i])
    {
      assert sends[..i + 1][..i] == sends[..i];
      NextTurn(writes, |requests|, attempt, i);
      writes := writes + [i];
      match sends[i]
      case Sent => sent := sent + 1;
      case SendFailed(stop) =>
        if stop {
          return true, sent, writes;
        }
    }
    assert sends[..|requests|] == sends;
    cancelled := false;
  }

  /** r is the answer to a request, which names `endpoint`. */
  ghost predicate Answer(requests: seq<Request>, r: StunResult, endpoint: ServerEndpoint) {
    exists i: nat ::
      LastWithID(requests, i, r.tid) && endpoint == requests[i].endpoint && SourceMatches(r.source, requests[i].addr)
  }

  /** Nothing received so far is an answer. */
  predicate NoneAccepted(requests: seq<Request>, seen: seq<StunResult>) {
    forall k :: 0 <= k < |seen| ==> !Accepts(requests, seen[k])
  }

  /** What a fan-out has made of the responses it received. */
  ghost predicate Told(requests: seq<Request>, outcome: Fanout, seen: seq<StunResult>) {
    match outcome
    case Answered(result, endpoint) =>
      && seen != [] && seen[|seen| - 1] == result && NoneAccepted(requests, seen[..|seen| - 1])
      && Answer(requests, result, endpoint)
    case _ => NoneAccepted(requests, seen)
  }

  // ----- When a fan-out ends

  /** The number of responses that arrive before anything else ends the wait. */
  function Arrivals(waits: seq<Wait>): (n: nat)
    ensures n <= |waits| && (forall j :: 0 <= j < n ==> waits[j].Arrived?) && (n < |waits| ==> !waits[n].Arrived?)
  {
    if waits == [] || !waits[0].Arrived? then 0 else 1 + Arrivals(waits[1..])
  }

  /** What ends a wait that no response ends; None if nothing does. */
  function Ending(waits: seq<Wait>): Option<Wait> {
    var n := Arrivals(waits);
    if n < |waits| then Some(waits[n]) else None
  }

  /** A wait that has seen `before` of the responses ends like this, having seen `seen`:
      the outcome is None if its timer fires. */
  ghost predicate WaitEnds(waits: seq<Wait>, responses: nat, before: nat, outcome: Option<Fanout>, seen: nat) {
    match outcome
    case None => seen == before + Arrivals(waits) && Ending(waits) == Some(TimerFired)
    case Some(Cancelled) => seen == before + Arrivals(waits) && Ending(waits) == Some(ContextDone)
    case Some(NoAnswer) => seen == before + Arrivals(waits) && Ending(waits) == Some(ChannelClosed)
    case Some(Answered(_, _)) => before < seen <= before + Arrivals(waits)
    case Some(StillWaiting) =>
      || (seen == before + Arrivals(waits) && Ending(waits) == None)
      || (before <= seen == responses < before + Arrivals(waits))
  }

  lemma WaitTimedOut(waits: seq<Wait>, responses: nat, before: nat, seen: nat)
    requires WaitEnds(waits, responses, before, None, seen)
    ensures Ending(waits) == Some(TimerFired) && seen == before + Arrivals(waits)
  {
  }

  /** A round in which nothing is cancelled, something is sent, and the timer ends
      the wait. */
  predicate TimesOut(round: Round) {
    && !round.cancelled && SendFailed(true) !in round.sends && Sent in round.sends
    && Ending(round.waits) == Some(TimerFired)
  }

  /** The responses that arrive in the first n rounds. */
  function ArrivedIn(rounds: seq<Round>, n: nat): nat
    requires n <= |rounds|
  {
    if n == 0 then 0 else ArrivedIn(rounds, n - 1) + Arrivals(rounds[n - 1].waits)
  }

  /** Why a fan-out to n servers has ended after `passed` rounds that timed out, with
      `sends` sends and `seen` responses. */
  ghost predicate FanoutEnds(n: nat, retries: nat, rounds: seq<Round>, responses: nat,
                             outcome: Fanout, passed: nat, sends: nat, seen: nat)
  {
    && passed <= retries && passed <= |rounds|
    && (forall k :: 0 <= k < passed ==> TimesOut(rounds[k]))
    && if n == 0 then outcome.NoAnswer? && passed == 0 && sends == 0 && seen == 0
       else if passed == retries then outcome.NoAnswer? && sends == passed * n && seen == ArrivedIn(rounds, passed)
       else if passed == |rounds| then outcome.StillWaiting? && sends == passed * n && seen == ArrivedIn(rounds, passed)
       else
         var round, before := rounds[passed], ArrivedIn(rounds, passed);
         if round.cancelled then outcome.Cancelled? && sends == passed * n && seen == before
         else if SendFailed(true) in round.sends then
           outcome.Cancelled? && passed * n < sends <= (passed + 1) * n && seen == before
         else if Sent !in round.sends then outcome.NoAnswer? && sends == (passed + 1) * n && seen == before
         else sends == (passed + 1) * n && WaitEnds(round.waits, responses, before, Some(outcome), seen)
  }

  lemma {:induction false} NoneSent(sends: seq<Send>)
    ensures CountSent(sends) == 0 <==> Sent !in sends
  {
    if sends == [] {
    } else {
      var n := |sends| - 1;
      NoneSent(sends[..n]);
      assert sends == sends[..n] + [sends[n]];
    }
  }

  /** The wait of one round: None when its timer fires. `responses` is what the
      channel delivers, of which the fan-out has seen `before`. */
  method Await(requests: seq<Request>, byTID: map<seq<byte>, Request>, waits: seq<Wait>, responses: seq<StunResult>,
               before: seq<StunResult>)
    returns (outcome: Option<Fanout>, seen: seq<StunResult>)
    requires byTID == ByTID(requests) && before <= responses && NoneAccepted(requests, before)
    ensures before <= seen <= responses
    ensures match outcome case None => NoneAccepted(requests, seen) case Some(end) => Told(requests, end, seen)
    ensures WaitEnds(waits, |responses|, |before|, outcome, |seen|)
  {
    hide SourceMatches, LastWithID, ByTID, Arrivals;
    seen := before;
    for j := 0 to |waits|
      invariant before <= seen <= responses && NoneAccepted(requests, seen)
      invariant |seen| == |before| + j && j <= Arrivals(waits)
    {
      match waits[j] {
        case ContextDone => return Some(Cancelled), seen;
        case ChannelClosed => return Some(NoAnswer), seen;
        case TimerFired => return None, seen;
        case Arrived =>
          if |seen| == |responses| {
            return Some(StillWaiting), seen;
          }
          var result := responses[|seen|];
          ghost var earlier := seen;
          seen := seen + [result];
          if result.tid in byTID && SourceMatches(result.source, byTID[result.tid].addr) {
            ghost var i := ByTIDIsLast(requests, result.tid);
            assert seen[..|seen| - 1] == earlier;
            return Some(Answered(result, byTID[result.tid].endpoint)), seen;
          }
      }
    }
    return Some(StillWaiting), seen;
  }

  /** stunUDPSharedFanout. `responses` is what the channel delivers; `writes` lists
      which request each send was for, `seen` the responses received, and `passed`
      counts the rounds that timed out. */
  method StunUDPSharedFanout(requests: seq<Request>, retries: nat, rounds: seq<Round>, responses: seq<StunResult>)
    returns (outcome: Fanout, writes: seq<nat>, seen: seq<StunResult>, passed: nat)
    requires forall k :: 0 <= k < |rounds| ==> |rounds[k].sends| == |requests|
    ensures |writes| <= retries * |requests| && InTurn(writes, |requests|)
    ensures seen <= responses && Told(requests, outcome, seen)
    ensures FanoutEnds(|requests|, retries, rounds, |responses|, outcome, passed, |writes|, |seen|)
  {
    hide InTurn, NoneAccepted, ByTID, WaitEnds, Ending, Answer, Arrivals, CountSent;
    writes, seen, passed := [], [], 0;
    NoTurns(|requests|);
    NothingSeen(requests);
    if |requests| == 0 {
      return NoAnswer, writes, seen, passed;
    }
    var byTID := Index(requests);
    while passed < retries
      invariant 0 <= passed <= retries && passed <= |rounds|
      invariant |writes| == passed * |requests| && InTurn(writes, |requests|)
      invariant seen <= responses && NoneAccepted(requests, seen) && |seen| == ArrivedIn(rounds, passed)
      invariant forall k :: 0 <= k < passed ==> TimesOut(rounds[k])
    {
      RoomForRound(passed, retries, |requests|);
      if passed >= |rounds| {
        return StillWaiting, writes, seen, passed;
      }
      var round := rounds[passed];
      if round.cancelled {
        return Cancelled, writes, seen, passed;
      }
      var cancelled, sent;
      cancelled, sent, writes := SendRound(requests, round.sends, passed, writes);
      if cancelled {
        return Cancelled, writes, seen, passed;
      }
      NoneSent(round.sends);
      if sent == 0 {
        return NoAnswer, writes, seen, passed;
      }
      var end;
      end, seen := Await(requests, byTID, round.waits, responses, seen);
      if end.Some? {
        return end.value, writes, seen, passed;
      }
      WaitTimedOut(round.waits, |responses|, ArrivedIn(rounds, passed), |seen|);
      passed := passed + 1;
    }
    return NoAnswer, writes, seen, passed;
  }

  /** These laws leave nothing open: the rounds and the responses determine how a
      fan-out ends, and after which round and response. */
  lemma FanoutIsDetermined(requests: seq<Request>, retries: nat, rounds: seq<Round>, responses: seq<StunResult>,
                           a: Fanout, p: nat, x: nat, seenA: seq<StunResult>,
                           b: Fanout, q: nat, y: nat, seenB: seq<StunResult>)
    requires seenA <= responses && Told(requests, a, seenA)
    requires seenB <= responses && Told(requests, b, seenB)
    requires FanoutEnds(|requests|, retries, rounds, |responses|, a, p, x, |seenA|)
    requires FanoutEnds(|requests|, retries, rounds, |responses|, b, q, y, |seenB|)
    ensures a == b && p == q && seenA == seenB
  {
    hide TimesOut, Arrivals, Ending, Told, FanoutEnds, WaitEnds;
    if (a.Answered? && |seenA| <= |seenB|) || (b.Answered? && |seenB| <= |seenA|) {
      OneAnswer(requests, responses, a, seenA, b, seenB);
    }
    if p < q {
      LaterRoundSeesMore(|requests|, retries, rounds, |responses|, a, p, x, |seenA|, b, q, y, |seenB|);
    } else if q < p {
      LaterRoundSeesMore(|requests|, retries, rounds, |responses|, b, q, y, |seenB|, a, p, x, |seenA|);
    } else {
      SameRoundSameEnd(|requests|, retries, rounds, |responses|, p, a, x, |seenA|, b, y, |seenB|);
    }
  }

  lemma {:induction false} ArrivedGrows(rounds: seq<Round>, m: nat, n: nat)
    requires m <= n <= |rounds|
    ensures ArrivedIn(rounds, m) <= ArrivedIn(rounds, n)
    decreases n
  {
    hide Arrivals;
    if m == n {
    } else {
      ArrivedGrows(rounds, m, n - 1);
    }
  }

  /** Of two accounts, one that goes on to a later round goes on past an answer. */
  lemma LaterRoundSeesMore(n: nat, retries: nat, rounds: seq<Round>, responses: nat,
                           a: Fanout, p: nat, x: nat, u: nat, b: Fanout, q: nat, y: nat, v: nat)
    requires FanoutEnds(n, retries, rounds, responses, a, p, x, u) && u <= responses
    requires FanoutEnds(n, retries, rounds, responses, b, q, y, v) && v <= responses
    requires p < q
    ensures a.Answered? && u <= v && !(b.Answered? && u == v)
  {
    hide Arrivals;
    ArrivedGrows(rounds, p + 1, q);
    assert TimesOut(rounds[p]) && ArrivedIn(rounds, p + 1) == ArrivedIn(rounds, p) + Arrivals(rounds[p].waits);
    SeesWhatArrived(n, retries, rounds, responses, b, q, y, v);
    hide ArrivedIn;
  }

  lemma SeesWhatArrived(n: nat, retries: nat, rounds: seq<Round>, responses: nat, b: Fanout, q: nat, y: nat, v: nat)
    requires FanoutEnds(n, retries, rounds, responses, b, q, y, v) && v <= responses
    ensures n > 0 ==> v >= ArrivedIn(rounds, q)
    ensures n > 0 && b.Answered? ==> v > ArrivedIn(rounds, q)
    ensures n == 0 ==> q == 0
  {
    hide ArrivedIn, Arrivals;
  }

  lemma SameRoundSameEnd(n: nat, retries: nat, rounds: seq<Round>, responses: nat, p: nat,
                         a: Fanout, x: nat, u: nat, b: Fanout, y: nat, v: nat)
    requires FanoutEnds(n, retries, rounds, responses, a, p, x, u) && u <= responses
    requires FanoutEnds(n, retries, rounds, responses, b, p, y, v) && v <= responses
    ensures a.Answered? && !b.Answered? ==> u <= v
    ensures b.Answered? && !a.Answered? ==> v <= u
    ensures !a.Answered? && !b.Answered? ==> a == b && u == v
  {
    hide Arrivals, TimesOut;
  }

  lemma OneAnswer(requests: seq<Request>, responses: seq<StunResult>,
                  a: Fanout, seenA: seq<StunResult>, b: Fanout, seenB: seq<StunResult>)
    requires seenA <= responses && Told(requests, a, seenA)
    requires seenB <= responses && Told(requests, b, seenB)
    requires (a.Answered? && |seenA| <= |seenB|) || (b.Answered? && |seenB| <= |seenA|)
    ensures a == b && seenA == seenB
  {
    hide Answer, Accepts;
    if a.Answered? && |seenA| <= |seenB| {
      FirstAnswer(requests, responses, a, seenA, b, seenB);
    } else {
      FirstAnswer(requests, responses, b, seenB, a, seenA);
    }
  }

  lemma FirstAnswer(requests: seq<Request>, responses: seq<StunResult>,
                    a: Fanout, seenA: seq<StunResult>, b: Fanout, seenB: seq<StunResult>)
    requires seenA <= responses && Told(requests, a, seenA)
    requires seenB <= responses && Told(requests, b, seenB)
    requires a.Answered? && |seenA| <= |seenB|
    ensures a == b && seenA == seenB
  {
    hide Answer, Accepts;
    var k := |seenA| - 1;
    AnswerIsAccepted(requests, a.result, a.endpoint);
    assert seenB[k] == a.result;
    assert b.Answered? && |seenB| == k + 1;
    OneEndpoint(requests, a.result, a.endpoint, b.endpoint);
  }

  lemma AnswerIsAccepted(requests: seq<Request>, r: StunResult, endpoint: ServerEndpoint)
    requires Answer(requests, r, endpoint)
    ensures Accepts(requests, r)
  {
    var i := ByTIDIsLast(requests, r.tid);
  }

  lemma OneEndpoint(requests: seq<Request>, r: StunResult, a: ServerEndpoint, b: ServerEndpoint)
    requires Answer(requests, r, a) && Answer(requests, r, b)
    ensures a == b
  {
  }

  lemma NothingSeen(requests: seq<Request>)
    ensures NoneAccepted(requests, [])
  {
  }

  lemma RoomForRound(attempt: nat, retries: nat, n: nat)
    requires attempt < retries
    ensures attempt * n + n <= retries * n
  {
    assert (attempt + 1) * n <= retries * n;
  }

  lemma NoTurns(n: nat)
    ensures InTurn([], n)
  {
  }

  lemma NextTurn(writes: seq<nat>, n: nat, attempt: nat, i: nat)
    requires i < n && |writes| == attempt * n + i && InTurn(writes, n)
    ensures InTurn(writes + [i], n)
  {
    RemainderIs(attempt * n + i, attempt, i, n);
  }

  // ----- From the socket to the answer

  lemma {:induction false} ResponseHasArrival(arrivals: seq<Arrival>, r: StunResult) returns (k: nat)
    requires r in Responses(arrivals)
    ensures k < |arrivals| && Diverted(arrivals[k]) && r == Response(arrivals[k])
  {
    hide Parse;
    var n := |arrivals| - 1;
    if Diverted(arrivals[n]) && r == Response(arrivals[n]) {
      k := n;
    } else {
      k := ResponseHasArrival(arrivals[..n], r);
    }
  }

  /** Arrival k is a Binding success response with the ID of request i and the
      address of r, from the address that request went to as far as both are known. */
  ghost predicate Answers(arrivals: seq<Arrival>, requests: seq<Request>, r: StunResult, k: nat, i: nat) {
    && k < |arrivals| && i < |requests| && 0 <= r.port < 0x1_0000
    && IsResponse(Clip(arrivals[k].data), requests[i].tid, r.ip, r.port)
    && SourceMatches(arrivals[k].source, requests[i].addr)
  }

  /** From the socket to the answer: if the channel delivers what the probe goroutine
      receives, the result of a fan-out arrived at the socket as a response to one of
      its requests, whose server is the one named. */
  lemma AnswerAnswersRequest(arrivals: seq<Arrival>, requests: seq<Request>, responses: seq<StunResult>,
                             seen: seq<StunResult>, r: StunResult, endpoint: ServerEndpoint)
    requires forall d :: d in responses ==> d in Received(arrivals)
    requires seen <= responses && Told(requests, Answered(r, endpoint), seen)
    ensures exists k: nat, i: nat :: Answers(arrivals, requests, r, k, i) && requests[i].endpoint == endpoint
  {
    hide Parse, IsResponse, Diverted, Response, Clip, Subsequence, NoneAccepted;
    QueueKeepsOrder(arrivals);
    assert r == responses[|seen| - 1] && r in Received(arrivals) + QueueAfter([], arrivals);
    SubsequenceMember(Received(arrivals) + QueueAfter([], arrivals), Responses(arrivals), r);
    var i: nat :| LastWithID(requests, i, r.tid) && endpoint == requests[i].endpoint &&
                  SourceMatches(r.source, requests[i].addr);
    var k := ResponseHasArrival(arrivals, r);
    ArrivalIsResponse(arrivals[k], r);
    assert Answers(arrivals, requests, r, k, i);
  }

  lemma ArrivalIsResponse(a: Arrival, r: StunResult)
    requires Diverted(a) && r == Response(a)
    ensures 0 <= r.port < 0x1_0000 && r.source == a.source && IsResponse(Clip(a.data), r.tid, r.ip, r.port)
  {
    hide Parse, IsResponse, Clip;
    var packet := Clip(a.data);
    var parsed := Parse(packet).value;
    ParsedPort(packet);
    AcceptsExactlyEncodings(packet, parsed.tid, parsed.ip, parsed.port);
  }

  lemma ParsedPort(packet: seq<byte>)
    requires Parse(packet).Ok?
    ensures var p := Parse(packet).value; 0 <= p.port < 0x1_0000 && p == StunResult(p.tid, p.ip, p.port, "", None)
  {
  }
}
