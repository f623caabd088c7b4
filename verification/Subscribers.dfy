/** The queues that carry status events to subscribers. Notifying, subscribing
    and cancelling hold the manager's lock; receivers do not. So a receive can
    fall between the three attempts of a notification: send, drop the oldest
    event, send again. The protocol is a state machine over these steps. */
module Subscribers {
  import opened Sequences
  import opened Wrappers

  const CAPACITY := 64

  /** A channel: its buffer and, for reasoning, what was received from it and
      what notifications it was offered since it was opened. */
  datatype Channel<E> = Channel(queue: seq<E>, received: seq<E>, offered: seq<E>, closed: bool)

  datatype Attempt = Send | DropOldest | SendAgain

  /** Who holds the lock: nobody, or a notification with subscribers left to
      serve and possibly one being served. */
  datatype Lock<E> =
    | Free
    | Notifying(event: E, left: set<nat>)
    | Serving(event: E, left: set<nat>, channel: nat, attempt: Attempt)

  datatype Hub<E> = Hub(channels: map<nat, Channel<E>>, subscribers: set<nat>, lock: Lock<E>)

  datatype Step<E> =
    | Subscribe(channel: nat)
    | Cancel(channel: nat)
    | Notify(event: E)
    | Pick(channel: nat)
    | Try
    | Done
    | Receive(channel: nat)

  function Empty<E>(): Hub<E> {
    Hub(map[], {}, Free)
  }

  predicate Enabled<E>(h: Hub<E>, step: Step<E>) {
    match step
    case Subscribe(c) => h.lock.Free? && c !in h.channels
    case Cancel(c) => h.lock.Free? && c in h.subscribers && c in h.channels
    case Notify(_) => h.lock.Free?
    case Pick(c) => h.lock.Notifying? && c in h.lock.left
    case Try => h.lock.Serving? && h.lock.channel in h.channels
    case Done => h.lock.Notifying? && h.lock.left == {}
    case Receive(c) => c in h.channels && h.channels[c].queue != []
  }

  /** The channel with an event sent to it. */
  function Offer<E>(c: Channel<E>, event: E): Channel<E> {
    c.(queue := c.queue + [event], offered := c.offered + [event])
  }

  /** One attempt of a notification on a channel; none of them blocks. */
  function Attempted<E>(c: Channel<E>, attempt: Attempt, event: E): Channel<E> {
    match attempt
    case Send => if |c.queue| < CAPACITY then Offer(c, event) else c
    case DropOldest => c.(queue := if c.queue == [] then [] else c.queue[1..])
    case SendAgain => if |c.queue| < CAPACITY then Offer(c, event) else c.(offered := c.offered + [event])
  }

  /** The attempt that follows, if the notification is not done with the channel. */
  function NextAttempt<E>(c: Channel<E>, attempt: Attempt): Option<Attempt> {
    match attempt
    case Send => if |c.queue| < CAPACITY then None else Some(DropOldest)
    case DropOldest => Some(SendAgain)
    case SendAgain => None
  }

  function Received<E>(c: Channel<E>): Channel<E>
    requires c.queue != []
  {
    c.(queue := c.queue[1..], received := c.received + [c.queue[0]])
  }

  function After<E>(h: Hub<E>, step: Step<E>): Hub<E>
    requires Enabled(h, step)
  {
    match step
    case Subscribe(c) => h.(channels := h.channels[c := Channel([], [], [], false)], subscribers := h.subscribers + {c})
    case Cancel(c) =>
      h.(channels := h.channels[c := h.channels[c].(closed := true)], subscribers := h.subscribers - {c})
    case Notify(event) => h.(lock := Notifying(event, h.subscribers))
    case Pick(c) => h.(lock := Serving(h.lock.event, h.lock.left - {c}, c, Send))
    case Done => h.(lock := Free)
    case Receive(c) => h.(channels := h.channels[c := Received(h.channels[c])])
    case Try =>
      var Serving(event, left, c, attempt) := h.lock;
      var ch := h.channels[c];
      var lock := match NextAttempt(ch, attempt)
                  case None => Notifying(event, left)
                  case Some(next) => Serving(event, left, c, next);
      Hub(h.channels[c := Attempted(ch, attempt, event)], h.subscribers, lock)
  }

  /** The hub after a run, if each of its steps is enabled in turn. */
  function Run<E>(h: Hub<E>, steps: seq<Step<E>>): Option<Hub<E>> {
    if steps == [] then Some(h)
    else
      match Run(h, steps[..|steps| - 1])
      case None => None
      case Some(mid) =>
        if Enabled(mid, steps[|steps| - 1]) then Some(After(mid, steps[|steps| - 1])) else None
  }

  // ----- The invariant

  /** A queue is bounded, and received followed by queued events are an in-order
      part of what was offered. */
  ghost predicate InOrder<E(!new)>(c: Channel<E>) {
    |c.queue| <= 64 && Subsequence(c.received + c.queue, c.offered)
  }

  /** The newest offered event is last in the queue, or was received last. */
  predicate HasNewest<E(==)>(c: Channel<E>) {
    c.offered != [] ==>
      var newest := c.offered[|c.offered| - 1];
      if c.queue != [] then c.queue[|c.queue| - 1] == newest
      else c.received != [] && c.received[|c.received| - 1] == newest
  }

  predicate LastOffered<E(==)>(c: Channel<E>, event: E) {
    c.offered != [] && c.offered[|c.offered| - 1] == event
  }

  /** A channel that has lost its oldest event has room for the new one. */
  ghost predicate ChannelInv<E(!new)>(c: Channel<E>, waiting: bool) {
    InOrder(c) && if waiting then |c.queue| < CAPACITY else HasNewest(c)
  }

  predicate Waiting<E>(h: Hub<E>, c: nat) {
    h.lock.Serving? && h.lock.channel == c && h.lock.attempt == SendAgain
  }

  /** The subscribers are the open channels, and only they are served. */
  predicate ServesOpen<E>(h: Hub<E>) {
    && h.subscribers <= h.channels.Keys
    && (forall c :: c in h.channels ==> (c in h.subscribers <==> !h.channels[c].closed))
    && (!h.lock.Free? ==> h.lock.left <= h.subscribers)
    && (h.lock.Serving? ==> h.lock.channel in h.subscribers)
  }

  /** Subscribers that are no longer left have been offered the event. */
  predicate Served<E(==)>(h: Hub<E>) {
    !h.lock.Free? ==>
      forall c ::
        c in h.subscribers && c in h.channels && c !in h.lock.left && !(h.lock.Serving? && h.lock.channel == c) ==>
        LastOffered(h.channels[c], h.lock.event)
  }

  ghost predicate Inv<E(!new)>(h: Hub<E>) {
    && ServesOpen(h)
    && Served(h)
    && forall c :: c in h.channels ==> ChannelInv(h.channels[c], Waiting(h, c))
  }

  lemma NewChannelInv<E(!new)>()
    ensures ChannelInv<E>(Channel([], [], [], false), false)
  {
    var c: Channel<E> := Channel([], [], [], false);
    SubsequenceEmpty<E>([]);
    assert c.received + c.queue == [];
  }

  lemma ReceivedInv<E(!new)>(c: Channel<E>, waiting: bool)
    requires ChannelInv(c, waiting) && c.queue != []
    ensures ChannelInv(Received(c), waiting)
    ensures Received(c).closed == c.closed
    ensures forall event :: LastOffered(c, event) ==> LastOffered(Received(c), event)
  {
    assert (c.received + [c.queue[0]]) + c.queue[1..] == c.received + c.queue;
  }

  lemma ClosedInv<E(!new)>(c: Channel<E>, waiting: bool)
    requires ChannelInv(c, waiting)
    ensures ChannelInv(c.(closed := true), waiting)
    ensures forall event :: LastOffered(c, event) ==> LastOffered(c.(closed := true), event)
  {
  }

  lemma AttemptedInv<E(!new)>(c: Channel<E>, attempt: Attempt, event: E)
    requires ChannelInv(c, attempt == SendAgain)
    ensures ChannelInv(Attempted(c, attempt, event), NextAttempt(c, attempt) == Some(SendAgain))
    ensures Attempted(c, attempt, event).closed == c.closed
    ensures NextAttempt(c, attempt).None? ==> LastOffered(Attempted(c, attempt, event), event)
  {
    if attempt.DropOldest? {
      if c.queue != [] {
        var all, k := c.received + c.queue, |c.received|;
        SubsequenceRemove(all, k, c.offered);
        assert all[..k] + all[k + 1..] == c.received + c.queue[1..];
      }
    } else if |c.queue| < CAPACITY {
      SubsequenceAppend(c.received + c.queue, c.offered, event);
      assert c.received + (c.queue + [event]) == (c.received + c.queue) + [event];
    }
  }

  lemma StepKeepsInv<E(!new)>(h: Hub<E>, step: Step<E>)
    requires Inv(h) && Enabled(h, step)
    ensures Inv(After(h, step))
  {
    hide ChannelInv, LastOffered, Received, Attempted, NextAttempt;
    match step {
      case Subscribe(_) => NewChannelInv<E>();
      case Receive(c) => ReceivedInv(h.channels[c], Waiting(h, c));
      case Try => AttemptedInv(h.channels[h.lock.channel], h.lock.attempt, h.lock.event);
      case Cancel(c) => ClosedInv(h.channels[c], Waiting(h, c));
      case _ =>
    }
  }

  /** In every reachable state, under every interleaving with receivers: queues
      hold at most 64 events in order; the newest event is never lost, except
      while a notification is about to deliver it; and no channel that is being
      served is closed, so no send follows a close. */
  lemma {:induction false} EveryRunKeepsInv<E(!new)>(steps: seq<Step<E>>, h: Hub<E>)
    requires Run(Empty(), steps) == Some(h)
    ensures Inv(h)
    decreases |steps|
  {
    if steps == [] {
      assert h == Empty();
    } else {
      var mid := Run(Empty<E>(), steps[..|steps| - 1]).value;
      EveryRunKeepsInv(steps[..|steps| - 1], mid);
      StepKeepsInv(mid, steps[|steps| - 1]);
    }
  }

  // ----- What was notified since a subscription

  /** The events notified while channel c was subscribed, and whether it still is. */
  function Notified<E>(steps: seq<Step<E>>, c: nat): (seq<E>, bool) {
    if steps == [] then ([], false)
    else
      var (events, subscribed) := Notified(steps[..|steps| - 1], c);
      match steps[|steps| - 1]
      case Subscribe(d) => if d == c then ([], true) else (events, subscribed)
      case Cancel(d) => (events, subscribed && d != c)
      case Notify(event) => (if subscribed then events + [event] else events, subscribed)
      case _ => (events, subscribed)
  }

  /** The notification in progress has not offered its event to the channel yet. */
  predicate Awaits<E>(h: Hub<E>, c: nat) {
    !h.lock.Free? && (c in h.lock.left || (h.lock.Serving? && h.lock.channel == c))
  }

  /** What channel c was offered is what was notified, up to the event in progress. */
  predicate Matches<E(==)>(h: Hub<E>, c: nat, notified: (seq<E>, bool)) {
    && (notified.1 <==> c in h.subscribers)
    && (c in h.channels ==>
          notified.0 == if Awaits(h, c) then h.channels[c].offered + [h.lock.event] else h.channels[c].offered)
  }

  /** A notification serves each of its subscribers once. */
  predicate ServesOnce<E>(h: Hub<E>) {
    && (forall c :: c in h.subscribers ==> c in h.channels)
    && (!h.lock.Free? ==> h.lock.left <= h.subscribers)
    && (h.lock.Serving? ==> h.lock.channel in h.subscribers && h.lock.channel !in h.lock.left)
  }

  lemma StepKeepsOnce<E(!new)>(h: Hub<E>, step: Step<E>)
    requires ServesOnce(h) && Enabled(h, step)
    ensures ServesOnce(After(h, step))
  {
    hide Received, Attempted, NextAttempt;
  }

  lemma AttemptOffers<E(!new)>(ch: Channel<E>, attempt: Attempt, event: E)
    ensures Attempted(ch, attempt, event).offered ==
            if NextAttempt(ch, attempt).None? then ch.offered + [event] else ch.offered
  {
  }

  lemma StepKeepsMatch<E(!new)>(h: Hub<E>, steps: seq<Step<E>>, step: Step<E>, c: nat)
    requires ServesOnce(h) && Enabled(h, step) && Matches(h, c, Notified(steps, c))
    ensures Matches(After(h, step), c, Notified(steps + [step], c))
  {
    assert (steps + [step])[..|steps|] == steps;
    if step.Try? {
      AttemptOffers(h.channels[h.lock.channel], h.lock.attempt, h.lock.event);
    }
    hide Attempted, NextAttempt;
  }

  /** In every reachable state, each channel was offered exactly the events notified
      since its subscription, except the one that is being delivered. */
  lemma {:induction false} OfferedIsNotified<E(!new)>(steps: seq<Step<E>>, h: Hub<E>, c: nat)
    requires Run(Empty(), steps) == Some(h)
    ensures ServesOnce(h) && Matches(h, c, Notified(steps, c))
    decreases |steps|
  {
    if steps == [] {
      assert h == Empty();
    } else {
      var before, last := steps[..|steps| - 1], steps[|steps| - 1];
      var mid := Run(Empty<E>(), before).value;
      OfferedIsNotified(before, mid, c);
      StepKeepsOnce(mid, last);
      StepKeepsMatch(mid, before, last, c);
      assert before + [last] == steps;
    }
  }

  /** So what a subscriber received, followed by what is queued for it, is an
      in-order part of what was notified since it subscribed. */
  lemma DeliveredIsNotified<E(!new)>(steps: seq<Step<E>>, h: Hub<E>, c: nat)
    requires Run(Empty(), steps) == Some(h) && c in h.channels
    ensures Subsequence(h.channels[c].received + h.channels[c].queue, Notified(steps, c).0)
  {
    EveryRunKeepsInv(steps, h);
    OfferedIsNotified(steps, h, c);
    assert ChannelInv(h.channels[c], Waiting(h, c));
    hide Notified, Run, Subsequence, Inv;
    if Awaits(h, c) {
      SubsequenceAppend(h.channels[c].received + h.channels[c].queue, h.channels[c].offered, h.lock.event);
    }
  }

  /** A notification that ends has reached every subscriber: its event is last
      in the queue, or was received last. */
  lemma NotificationReachesAll<E(!new)>(steps: seq<Step<E>>, h: Hub<E>, c: nat)
    requires Run(Empty(), steps) == Some(h)
    requires h.lock.Notifying? && Enabled(h, Done) && c in h.subscribers
    ensures c in h.channels && !h.channels[c].closed
    ensures var ch := h.channels[c];
            if ch.queue != [] then ch.queue[|ch.queue| - 1] == h.lock.event
            else ch.received != [] && ch.received[|ch.received| - 1] == h.lock.event
  {
    EveryRunKeepsInv(steps, h);
  }

  // ----- What is lost

  /** The step takes the oldest event from channel c to make room. */
  predicate Drops<E>(h: Hub<E>, step: Step<E>, c: nat) {
    && step.Try? && h.lock.Serving? && h.lock.channel == c && h.lock.attempt == DropOldest
    && c in h.channels && h.channels[c].queue != []
  }

  /** The number of events that channel c has lost. */
  function Lost<E>(steps: seq<Step<E>>, c: nat): nat {
    if steps == [] then 0
    else
      var before, last := steps[..|steps| - 1], steps[|steps| - 1];
      Lost(before, c) +
      match Run(Empty(), before)
      case None => 0
      case Some(mid) => if Drops(mid, last, c) then 1 else 0
  }

  /** The queue holds the latest of what the channel was offered, and every event
      offered was received, is queued, or was lost. */
  predicate Conserves<E(==)>(c: Channel<E>, lost: nat) {
    && |c.offered| == |c.received| + |c.queue| + lost
    && c.queue == c.offered[|c.offered| - |c.queue|..]
  }

  lemma StepConserves<E(!new)>(h: Hub<E>, step: Step<E>, c: nat, lost: nat)
    requires Inv(h) && Enabled(h, step) && c in h.channels && Conserves(h.channels[c], lost)
    ensures c in After(h, step).channels
    ensures Conserves(After(h, step).channels[c], lost + if Drops(h, step, c) then 1 else 0)
  {
    assert ChannelInv(h.channels[c], Waiting(h, c));
    hide Inv, ChannelInv, Conserves, Received, Attempted, NextAttempt;
    match step {
      case Receive(d) =>
        if d == c {
          ReceiveConserves(h.channels[c], lost);
        }
      case Try =>
        if h.lock.channel == c {
          RoomWhenWaiting(h.channels[c], Waiting(h, c));
          AttemptConserves(h.channels[c], h.lock.attempt, h.lock.event, lost);
        }
      case Cancel(d) => ClosingConserves(h.channels[d], lost);
      case _ =>
    }
  }

  lemma RoomWhenWaiting<E(!new)>(c: Channel<E>, waiting: bool)
    requires ChannelInv(c, waiting)
    ensures waiting ==> |c.queue| < CAPACITY
  {
  }

  lemma ClosingConserves<E(!new)>(c: Channel<E>, lost: nat)
    ensures Conserves(c.(closed := true), lost) <==> Conserves(c, lost)
  {
  }

  lemma ReceiveConserves<E(!new)>(c: Channel<E>, lost: nat)
    requires Conserves(c, lost) && c.queue != []
    ensures Conserves(Received(c), lost)
  {
  }

  lemma AttemptConserves<E(!new)>(c: Channel<E>, attempt: Attempt, event: E, lost: nat)
    requires Conserves(c, lost) && (attempt == SendAgain ==> |c.queue| < CAPACITY)
    ensures Conserves(Attempted(c, attempt, event), lost + if attempt == DropOldest && c.queue != [] then 1 else 0)
  {
  }

  /** In every reachable state, for every channel: nothing is lost but what was
      dropped, and what is queued are the latest events, with no gap. */
  lemma {:induction false} QueueHoldsTheLatest<E(!new)>(steps: seq<Step<E>>, h: Hub<E>, c: nat)
    requires Run(Empty(), steps) == Some(h)
    ensures if c in h.channels then Conserves(h.channels[c], Lost(steps, c)) else Lost(steps, c) == 0
    decreases |steps|
  {
    hide Inv;
    if steps == [] {
      assert h == Empty();
    } else {
      var before, last := steps[..|steps| - 1], steps[|steps| - 1];
      var mid := Run(Empty<E>(), before).value;
      QueueHoldsTheLatest(before, mid, c);
      EveryRunKeepsInv(before, mid);
      if c in mid.channels {
        StepConserves(mid, last, c, Lost(before, c));
        hide Conserves, Run, After;
      }
    }
  }

  /** An event is dropped only if the notification has found the queue full: since
      then only receivers have taken a step. */
  lemma {:induction false} DropsOnlyWhenFull<E(!new)>(steps: seq<Step<E>>, h: Hub<E>) returns (k: nat)
    requires Run(Empty(), steps) == Some(h) && h.lock.Serving? && h.lock.attempt == DropOldest
    ensures k < |steps| && steps[k] == Try && forall j :: k < j < |steps| ==> steps[j].Receive?
    ensures Run(Empty(), steps[..k]).Some?
    ensures var was := Run(Empty(), steps[..k]).value;
            && was.lock == h.lock.(attempt := Send) && h.lock.channel in was.channels
            && |was.channels[h.lock.channel].queue| >= 64
    decreases |steps|
  {
    var n := |steps| - 1;
    if steps == [] {
      assert false;
    }
    var mid := Run(Empty<E>(), steps[..n]).value;
    StepToDrop(mid, steps[n]);
    hide After, Enabled, Run;
    if steps[n].Receive? {
      var before := steps[..n];
      k := DropsOnlyWhenFull(before, mid);
      assert before[..k] == steps[..k] && steps == before + [steps[n]];
    } else {
      k := n;
    }
  }

  lemma StepToDrop<E(!new)>(h: Hub<E>, step: Step<E>)
    requires Enabled(h, step)
    requires var lock := After(h, step).lock; lock.Serving? && lock.attempt == DropOldest
    ensures var lock := After(h, step).lock;
            || (step.Receive? && h.lock == lock)
            || (step == Try && h.lock == lock.(attempt := Send) && lock.channel in h.channels &&
                |h.channels[lock.channel].queue| >= 64)
  {
    hide Attempted, Received;
  }

  /** The events that channel c has lost since the last notification began. */
  function LostNow<E>(steps: seq<Step<E>>, c: nat): nat {
    if steps == [] || steps[|steps| - 1].Notify? then 0
    else
      var before, last := steps[..|steps| - 1], steps[|steps| - 1];
      LostNow(before, c) +
      match Run(Empty(), before)
      case None => 0
      case Some(mid) => if Drops(mid, last, c) then 1 else 0
  }

  /** The notification in progress may still drop an event of the channel. */
  predicate MayDrop<E>(h: Hub<E>, c: nat) {
    !h.lock.Free? &&
    (c in h.lock.left || (h.lock.Serving? && h.lock.channel == c && h.lock.attempt != SendAgain))
  }

  /** A notification loses at most one event of each channel, its oldest. */
  lemma {:induction false} OneLossPerNotification<E(!new)>(steps: seq<Step<E>>, h: Hub<E>, c: nat)
    requires Run(Empty(), steps) == Some(h)
    ensures LostNow(steps, c) <= 1 && (MayDrop(h, c) ==> LostNow(steps, c) == 0)
    decreases |steps|
  {
    if steps == [] {
      assert h == Empty();
    } else {
      var before, last := steps[..|steps| - 1], steps[|steps| - 1];
      var mid := Run(Empty<E>(), before).value;
      OneLossPerNotification(before, mid, c);
      OfferedIsNotified(before, mid, c);
      StepMayDrop(mid, last, c);
      hide Run, After, MayDrop, Enabled, Matches;
    }
  }

  lemma StepMayDrop<E(!new)>(h: Hub<E>, step: Step<E>, c: nat)
    requires ServesOnce(h) && Enabled(h, step)
    ensures MayDrop(After(h, step), c) && !step.Notify? ==> MayDrop(h, c) && !Drops(h, step, c)
    ensures Drops(h, step, c) ==> MayDrop(h, c)
  {
    hide Received, Attempted;
  }

  /** No step changes a channel after its close, except that its receiver may
      take what is left. */
  lemma NoSendAfterClose<E(!new)>(steps: seq<Step<E>>, h: Hub<E>, step: Step<E>, c: nat)
    requires Run(Empty(), steps) == Some(h) && Enabled(h, step)
    requires c in h.channels && h.channels[c].closed && !(step.Receive? && step.channel == c)
    ensures c in After(h, step).channels && After(h, step).channels[c] == h.channels[c]
  {
    EveryRunKeepsInv(steps, h);
  }
}
