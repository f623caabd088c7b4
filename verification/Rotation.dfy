/** Fair use of the configured servers: cursors, batches and orderings. */
module Rotation {
  import opened Arith
  import opened Net
  import opened Text
  import opened Wrappers

  /** sameServerEndpoint */
  predicate SameEndpoint(a: ServerEndpoint, b: ServerEndpoint) {
    EqualFold(a.host, b.host) && a.port == b.port
  }

  predicate DuplicateFree(endpoints: seq<ServerEndpoint>) {
    forall i, j :: 0 <= i < j < |endpoints| ==> !SameEndpoint(endpoints[i], endpoints[j])
  }

  /** rotateServerEndpoints */
  function Rotate(endpoints: seq<ServerEndpoint>, start: nat): (r: seq<ServerEndpoint>)
    ensures |r| == |endpoints|
  {
    if endpoints == [] then []
    else
      var s := start % |endpoints|;
      endpoints[s..] + endpoints[..s]
  }

  lemma RotatePermutes(endpoints: seq<ServerEndpoint>, start: nat)
    ensures multiset(Rotate(endpoints, start)) == multiset(endpoints)
  {
    if endpoints != [] {
      var s := start % |endpoints|;
      assert endpoints == endpoints[..s] + endpoints[s..];
    }
  }

  /** The first position of a server, or the length of the list. */
  function IndexOfEndpoint(endpoints: seq<ServerEndpoint>, target: ServerEndpoint): (i: nat)
    ensures i <= |endpoints|
    ensures i < |endpoints| ==> SameEndpoint(endpoints[i], target)
    ensures forall j :: 0 <= j < i ==> !SameEndpoint(endpoints[j], target)
  {
    if endpoints == [] || SameEndpoint(endpoints[0], target) then 0 else 1 + IndexOfEndpoint(endpoints[1..], target)
  }

  // ----- One request for servers, on the cursor of one kind

  /** orderedServerEndpoints: the servers in order, and the new cursor. */
  function Ordered(cursor: nat, endpoints: seq<ServerEndpoint>, after: Option<ServerEndpoint>)
    : (seq<ServerEndpoint>, nat)
  {
    var n := |endpoints|;
    if n <= 1 then (endpoints, cursor)
    else
      var i := if after.Some? then IndexOfEndpoint(endpoints, after.value) else n;
      var start := if i < n then (i + 1) % n else cursor % n;
      (Rotate(endpoints, start), start + 1)
  }

  /** orderedServerEndpointBatch */
  function Batch(cursor: nat, endpoints: seq<ServerEndpoint>, limit: int): (seq<ServerEndpoint>, nat) {
    if |endpoints| <= 1 || limit <= 0 || limit >= |endpoints| then Ordered(cursor, endpoints, None)
    else
      var start := cursor % |endpoints|;
      (Rotate(endpoints, start)[..limit], start + limit)
  }

  /** setServerCursorAfter */
  function CursorAfter(cursor: nat, endpoints: seq<ServerEndpoint>, endpoint: ServerEndpoint): nat {
    var i := IndexOfEndpoint(endpoints, endpoint);
    if i < |endpoints| then i + 1 else cursor
  }

  function CursorOf(cursors: map<string, nat>, kind: string): nat {
    if kind in cursors then cursors[kind] else 0
  }

  class ServerCursors {
    var serverCursor: map<string, nat>

    constructor ()
      ensures serverCursor == map[]
    {
      serverCursor := map[];
    }

    method NextServerCursorStep(kind: string, length: int, step: int) returns (start: nat)
      modifies this
      ensures length <= 0 ==> start == 0 && serverCursor == old(serverCursor)
      ensures length > 0 ==>
        && start == CursorOf(old(serverCursor), kind) % length
        && serverCursor == old(serverCursor)[kind := start + if step <= 0 then 1 else step]
    {
      if length <= 0 {
        return 0;
      }
      var stride := if step <= 0 then 1 else step;
      start := CursorOf(serverCursor, kind) % length;
      serverCursor := serverCursor[kind := start + stride];
    }

    method SetServerCursorAfter(kind: string, endpoints: seq<ServerEndpoint>, endpoint: ServerEndpoint)
      modifies this
      ensures CursorOf(serverCursor, kind) == CursorAfter(CursorOf(old(serverCursor), kind), endpoints, endpoint)
      ensures forall other :: other != kind ==> CursorOf(serverCursor, other) == CursorOf(old(serverCursor), other)
    {
      var idx := IndexOfServerEndpoint(endpoints, endpoint);
      if idx >= 0 {
        serverCursor := serverCursor[kind := idx + 1];
      }
    }

    method OrderedServerEndpoints(kind: string, endpoints: seq<ServerEndpoint>, after: Option<ServerEndpoint>)
      returns (ordered: seq<ServerEndpoint>)
      modifies this
      ensures (ordered, CursorOf(serverCursor, kind)) == Ordered(CursorOf(old(serverCursor), kind), endpoints, after)
      ensures forall other :: other != kind ==> CursorOf(serverCursor, other) == CursorOf(old(serverCursor), other)
    {
      if |endpoints| <= 1 {
        return endpoints;
      }
      var start := -1;
      if after.Some? {
        var idx := IndexOfServerEndpoint(endpoints, after.value);
        if idx >= 0 {
          start := (idx + 1) % |endpoints|;
        }
      }
      if start < 0 {
        start := NextServerCursorStep(kind, |endpoints|, 1);
      } else {
        serverCursor := serverCursor[kind := start + 1];
      }
      return Rotate(endpoints, start);
    }

    method OrderedServerEndpointBatch(kind: string, endpoints: seq<ServerEndpoint>, limit: int)
      returns (batch: seq<ServerEndpoint>)
      modifies this
      ensures (batch, CursorOf(serverCursor, kind)) == Batch(CursorOf(old(serverCursor), kind), endpoints, limit)
      ensures forall other :: other != kind ==> CursorOf(serverCursor, other) == CursorOf(old(serverCursor), other)
    {
      if |endpoints| <= 1 || limit <= 0 || limit >= |endpoints| {
        batch := OrderedServerEndpoints(kind, endpoints, None);
        return;
      }
      var start := NextServerCursorStep(kind, |endpoints|, limit);
      return Rotate(endpoints, start)[..limit];
    }
  }

  /** indexOfServerEndpoint */
  method IndexOfServerEndpoint(endpoints: seq<ServerEndpoint>, target: ServerEndpoint) returns (index: int)
    ensures var i := IndexOfEndpoint(endpoints, target); index == if i < |endpoints| then i else -1
  {
    for i := 0 to |endpoints|
      invariant forall j :: 0 <= j < i ==> !SameEndpoint(endpoints[j], target)
    {
      if SameEndpoint(endpoints[i], target) {
        FirstIndex(endpoints, target, i);
        return i;
      }
    }
    FirstIndex(endpoints, target, |endpoints|);
    return -1;
  }

  lemma FirstIndex(endpoints: seq<ServerEndpoint>, target: ServerEndpoint, i: nat)
    requires i <= |endpoints| && forall j :: 0 <= j < i ==> !SameEndpoint(endpoints[j], target)
    requires i < |endpoints| ==> SameEndpoint(endpoints[i], target)
    ensures IndexOfEndpoint(endpoints, target) == i
  {
  }

  // ----- One cyclic walk

  /** The server at a position of the endless cyclic list. */
  function At(endpoints: seq<ServerEndpoint>, position: nat): ServerEndpoint
    requires endpoints != []
  {
    endpoints[position % |endpoints|]
  }

  lemma RotateAt(endpoints: seq<ServerEndpoint>, start: nat, i: nat)
    requires i < |endpoints|
    ensures Rotate(endpoints, start)[i] == At(endpoints, start + i)
  {
    var n := |endpoints|;
    var s := start % n;
    AddRemainder(start, i, n);
    if s + i < n {
      RemainderIs(s + i, 0, s + i, n);
    } else {
      RemainderIs(s + i, 1, s + i - n, n);
    }
  }

  /** The servers that k successive batches hand out, and the cursor after them. */
  function Batches(cursor: nat, endpoints: seq<ServerEndpoint>, limit: int, k: nat): (seq<ServerEndpoint>, nat) {
    if k == 0 then ([], cursor)
    else
      var (earlier, c) := Batches(cursor, endpoints, limit, k - 1);
      var (batch, c') := Batch(c, endpoints, limit);
      (earlier + batch, c')
  }

  /** A batch from a cursor that is congruent to x starts at position x. */
  lemma BatchAt(cursor: nat, x: nat, endpoints: seq<ServerEndpoint>, limit: int)
    requires 0 < limit < |endpoints| && cursor % |endpoints| == x % |endpoints|
    ensures var (batch, cursor') := Batch(cursor, endpoints, limit);
            && |batch| == limit
            && cursor' % |endpoints| == (x + limit) % |endpoints|
            && forall i :: 0 <= i < limit ==> batch[i] == At(endpoints, x + i)
  {
    var n := |endpoints|;
    var batch := Batch(cursor, endpoints, limit).0;
    AddRemainder(x, limit, n);
    forall i | 0 <= i < limit ensures batch[i] == At(endpoints, x + i) {
      RotateAt(endpoints, cursor % n, i);
      AddRemainder(x, i, n);
    }
  }

  /** What was handed out walks through the list from the cursor, position by
      position modulo its length, and the new cursor is where the walk stopped. */
  ghost predicate IsWalk(cursor: nat, endpoints: seq<ServerEndpoint>, handed: seq<ServerEndpoint>, cursor': nat)
    requires endpoints != []
  {
    && cursor' % |endpoints| == (cursor + |handed|) % |endpoints|
    && forall i :: 0 <= i < |handed| ==> handed[i] == At(endpoints, cursor + i)
  }

  lemma ExtendWalk(cursor: nat, endpoints: seq<ServerEndpoint>, handed: seq<ServerEndpoint>, c: nat, limit: int)
    requires 0 < limit < |endpoints| && IsWalk(cursor, endpoints, handed, c)
    ensures var (batch, c') := Batch(c, endpoints, limit);
            |batch| == limit && IsWalk(cursor, endpoints, handed + batch, c')
  {
    hide Batch, At;
    BatchAt(c, cursor + |handed|, endpoints, limit);
    var batch := Batch(c, endpoints, limit).0;
    forall i | |handed| <= i < |handed| + limit ensures (handed + batch)[i] == At(endpoints, cursor + i) {
      assert batch[i - |handed|] == At(endpoints, cursor + |handed| + (i - |handed|));
    }
  }

  /** From any cursor, successive batches are one walk, however many there are. */
  lemma {:induction false} BatchesAreOneWalk(cursor: nat, endpoints: seq<ServerEndpoint>, limit: int, k: nat)
    requires 0 < limit < |endpoints|
    ensures var (handed, c) := Batches(cursor, endpoints, limit, k);
            |handed| == k * limit && IsWalk(cursor, endpoints, handed, c)
  {
    hide Batch, At, IsWalk;
    if k == 0 {
      EmptyWalk(cursor, endpoints);
    } else {
      BatchesAreOneWalk(cursor, endpoints, limit, k - 1);
      var (earlier, c) := Batches(cursor, endpoints, limit, k - 1);
      ExtendWalk(cursor, endpoints, earlier, c, limit);
      assert k * limit == (k - 1) * limit + limit;
    }
  }

  lemma EmptyWalk(cursor: nat, endpoints: seq<ServerEndpoint>)
    requires endpoints != []
    ensures IsWalk(cursor, endpoints, [], cursor)
  {
  }

  lemma StepsTo(cursor: nat, p: nat, n: nat) returns (i: nat)
    requires p < n
    ensures i < n && (cursor + i) % n == p
  {
    var s := cursor % n;
    i := if p >= s then p - s else p + n - s;
    AddRemainder(cursor, i, n);
    RemainderIs(s + i, if p >= s then 0 else 1, p, n);
  }

  /** Any ceil(n / limit) successive batches hand out every server. */
  lemma BatchesCover(cursor: nat, endpoints: seq<ServerEndpoint>, limit: int, p: nat)
    requires 0 < limit < |endpoints| && p < |endpoints|
    ensures endpoints[p] in Batches(cursor, endpoints, limit, CeilDiv(|endpoints|, limit)).0
  {
    var k := CeilDiv(|endpoints|, limit);
    BatchesAreOneWalk(cursor, endpoints, limit, k);
    var i := StepsTo(cursor, p, |endpoints|);
    hide Batches;
    assert Batches(cursor, endpoints, limit, k).0[i] == endpoints[p];
  }

  // ----- After a success

  /** What is handed out first, whatever the batch size. */
  lemma {:induction false} FirstRound(cursor: nat, endpoints: seq<ServerEndpoint>, limit: int, k: nat, i: nat)
    requires |endpoints| > 1
    requires i < |endpoints| && i < |Batches(cursor, endpoints, limit, k).0|
    ensures Batches(cursor, endpoints, limit, k).0[i] == At(endpoints, cursor + i)
  {
    if 0 < limit < |endpoints| {
      BatchesAreOneWalk(cursor, endpoints, limit, k);
    } else if k == 1 {
      RotateAt(endpoints, cursor % |endpoints|, i);
      AddRemainder(cursor, i, |endpoints|);
    } else {
      assert k > 1;
      WholeRounds(cursor, endpoints, limit, k - 1);
      FirstRound(cursor, endpoints, limit, k - 1, i);
    }
  }

  lemma WholeRounds(cursor: nat, endpoints: seq<ServerEndpoint>, limit: int, k: nat)
    requires |endpoints| > 1 && !(0 < limit < |endpoints|) && k > 0
    ensures |Batches(cursor, endpoints, limit, k).0| >= |endpoints|
  {
  }

  /** A server that answered goes to the end of the line: in a list without
      duplicates it is not handed out again among the next n - 1 servers. */
  lemma SuccessGoesLast(cursor: nat, endpoints: seq<ServerEndpoint>, e: nat, limit: int, k: nat, i: nat)
    requires e < |endpoints| && |endpoints| > 1 && DuplicateFree(endpoints)
    requires i < |endpoints| - 1
    requires i < |Batches(CursorAfter(cursor, endpoints, endpoints[e]), endpoints, limit, k).0|
    ensures !SameEndpoint(Batches(CursorAfter(cursor, endpoints, endpoints[e]), endpoints, limit, k).0[i], endpoints[e])
  {
    hide *;
    OnlyItself(endpoints, e);
    CursorAfterSuccess(cursor, endpoints, e);
    FirstRound(e + 1, endpoints, limit, k, i);
    var q := NotYetAround(endpoints, e, i);
  }

  /** And those next n - 1 servers are all the others. */
  lemma OthersComeFirst(cursor: nat, endpoints: seq<ServerEndpoint>, e: nat, limit: int, k: nat, p: nat)
    requires e < |endpoints| && |endpoints| > 1 && DuplicateFree(endpoints)
    requires p < |endpoints| && p != e
    requires |Batches(CursorAfter(cursor, endpoints, endpoints[e]), endpoints, limit, k).0| >= |endpoints| - 1
    ensures endpoints[p] in
            Batches(CursorAfter(cursor, endpoints, endpoints[e]), endpoints, limit, k).0[..|endpoints| - 1]
  {
    hide *;
    CursorAfterSuccess(cursor, endpoints, e);
    var handed := Batches(e + 1, endpoints, limit, k).0;
    var i := ReachesAll(endpoints, e, p);
    FirstRound(e + 1, endpoints, limit, k, i);
    assert handed[..|endpoints| - 1][i] == endpoints[p];
  }

  lemma CursorAfterSuccess(cursor: nat, endpoints: seq<ServerEndpoint>, e: nat)
    requires e < |endpoints| && DuplicateFree(endpoints)
    ensures CursorAfter(cursor, endpoints, endpoints[e]) == e + 1
  {
  }

  lemma OnlyItself(endpoints: seq<ServerEndpoint>, e: nat)
    requires e < |endpoints| && DuplicateFree(endpoints)
    ensures forall j :: 0 <= j < |endpoints| ==> (SameEndpoint(endpoints[j], endpoints[e]) <==> j == e)
  {
  }

  lemma NotYetAround(endpoints: seq<ServerEndpoint>, e: nat, i: nat) returns (q: nat)
    requires e < |endpoints| && i < |endpoints| - 1
    ensures q < |endpoints| && q != e && At(endpoints, e + 1 + i) == endpoints[q]
  {
    var n := |endpoints|;
    q := if e + 1 + i < n then e + 1 + i else e + 1 + i - n;
    RemainderIs(e + 1 + i, if e + 1 + i < n then 0 else 1, q, n);
  }

  lemma ReachesAll(endpoints: seq<ServerEndpoint>, e: nat, p: nat) returns (i: nat)
    requires e < |endpoints| && p < |endpoints| && p != e
    ensures i < |endpoints| - 1 && At(endpoints, e + 1 + i) == endpoints[p]
  {
    i := if p > e then p - e - 1 else p + |endpoints| - e - 1;
    RemainderIs(e + 1 + i, if p > e then 0 else 1, p, |endpoints|);
  }

  /** An ordering "after" a server that died is a permutation with it last. */
  lemma DeadServerIsLast(cursor: nat, endpoints: seq<ServerEndpoint>, dead: ServerEndpoint)
    requires |endpoints| > 1
    ensures var ordered := Ordered(cursor, endpoints, Some(dead)).0;
            && multiset(ordered) == multiset(endpoints)
            && ((exists i :: 0 <= i < |endpoints| && SameEndpoint(endpoints[i], dead)) ==>
                  SameEndpoint(ordered[|ordered| - 1], dead))
  {
    hide SameEndpoint;
    var n := |endpoints|;
    var i := IndexOfEndpoint(endpoints, dead);
    RotatePermutes(endpoints, if i < n then (i + 1) % n else cursor % n);
    if i < n {
      LastOfRotation(endpoints, i);
    }
    hide Rotate;
  }

  // ----- Whole orderings

  /** The k orderings of k successive requests for all servers, and the cursor after
      them. */
  function Orderings(cursor: nat, endpoints: seq<ServerEndpoint>, k: nat): (seq<seq<ServerEndpoint>>, nat) {
    if k == 0 then ([], cursor)
    else
      var (earlier, c) := Orderings(cursor, endpoints, k - 1);
      var (order, c') := Ordered(c, endpoints, None);
      (earlier + [order], c')
  }

  /** The order holds every server in turn, from position x on. */
  ghost predicate InTurnFrom(order: seq<ServerEndpoint>, endpoints: seq<ServerEndpoint>, x: nat)
    requires endpoints != []
  {
    |order| == |endpoints| && forall j :: 0 <= j < |order| ==> order[j] == At(endpoints, x + j)
  }

  lemma OrderedAt(cursor: nat, x: nat, endpoints: seq<ServerEndpoint>)
    requires |endpoints| > 1 && cursor % |endpoints| == x % |endpoints|
    ensures var (order, cursor') := Ordered(cursor, endpoints, None);
            InTurnFrom(order, endpoints, x) && cursor' % |endpoints| == (x + 1) % |endpoints|
  {
    var n := |endpoints|;
    AddRemainder(x, 1, n);
    forall j | 0 <= j < n ensures Ordered(cursor, endpoints, None).0[j] == At(endpoints, x + j) {
      RotateAt(endpoints, cursor % n, j);
      AddRemainder(x, j, n);
    }
  }

  /** Successive requests for all servers each start one server further, so every
      server is first in its turn. */
  lemma {:induction false} OrderingsTakeTurns(cursor: nat, endpoints: seq<ServerEndpoint>, k: nat)
    requires |endpoints| > 1
    ensures var (orders, c) := Orderings(cursor, endpoints, k);
            && |orders| == k && c % |endpoints| == (cursor + k) % |endpoints|
            && forall i :: 0 <= i < k ==> InTurnFrom(orders[i], endpoints, cursor + i)
  {
    hide Ordered, InTurnFrom;
    if k == 0 {
    } else {
      OrderingsTakeTurns(cursor, endpoints, k - 1);
      OrderedAt(Orderings(cursor, endpoints, k - 1).1, cursor + k - 1, endpoints);
    }
  }

  /** An ordering after a listed server starts behind it, wherever the cursor was,
      and the next request for all servers starts one further; after a server that
      is not listed, the cursor counts. */
  lemma OrderedAfterServer(cursor: nat, endpoints: seq<ServerEndpoint>, server: ServerEndpoint)
    requires |endpoints| > 1
    ensures var (order, cursor') := Ordered(cursor, endpoints, Some(server));
            var i := IndexOfEndpoint(endpoints, server);
            var start := if i < |endpoints| then i + 1 else cursor;
            InTurnFrom(order, endpoints, start) && cursor' % |endpoints| == (start + 1) % |endpoints|
  {
    hide InTurnFrom, Rotate;
    var i := IndexOfEndpoint(endpoints, server);
    var start := if i < |endpoints| then i + 1 else cursor;
    assert Ordered(cursor, endpoints, Some(server)) == Ordered(start, endpoints, None);
    hide Ordered;
    OrderedAt(start, start, endpoints);
  }

  /** Before any request the list is handed out as it is configured. */
  lemma FirstOrdering(endpoints: seq<ServerEndpoint>, kind: string)
    ensures Ordered(CursorOf(map[], kind), endpoints, None).0 == endpoints
  {
    if |endpoints| > 1 {
      assert endpoints[0..] + endpoints[..0] == endpoints;
    }
  }

  /** A list of at most one server moves no cursor, and a batch that is not smaller
      than the list, or has no limit, is a whole ordering. */
  lemma UnlimitedBatch(cursor: nat, endpoints: seq<ServerEndpoint>, limit: int)
    requires limit <= 0 || limit >= |endpoints| || |endpoints| <= 1
    ensures |endpoints| <= 1 ==> Batch(cursor, endpoints, limit) == (endpoints, cursor)
    ensures |endpoints| > 1 ==>
              var (batch, cursor') := Batch(cursor, endpoints, limit);
              InTurnFrom(batch, endpoints, cursor) && cursor' % |endpoints| == (cursor + 1) % |endpoints|
  {
    if |endpoints| > 1 {
      OrderedAt(cursor, cursor, endpoints);
    }
  }

  /** The success of a server that is not listed moves no cursor. */
  lemma UnlistedSuccess(cursor: nat, endpoints: seq<ServerEndpoint>, server: ServerEndpoint)
    requires forall i :: 0 <= i < |endpoints| ==> !SameEndpoint(endpoints[i], server)
    ensures CursorAfter(cursor, endpoints, server) == cursor
  {
  }

  lemma LastOfRotation(endpoints: seq<ServerEndpoint>, i: nat)
    requires i < |endpoints|
    ensures Rotate(endpoints, (i + 1) % |endpoints|)[|endpoints| - 1] == endpoints[i]
  {
    var n := |endpoints|;
    RotateAt(endpoints, (i + 1) % n, n - 1);
    AddRemainder(i + 1, n - 1, n);
    RemainderIs(i + n, 1, i, n);
  }
}
