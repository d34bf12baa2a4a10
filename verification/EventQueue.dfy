/**
 The watcher's event channel (`sendEvent` of internal/device/watcher.go): a send never waits, and an event that
 finds the channel full is dropped.
 */
module EventQueue {
  import opened Wrappers
  import opened Bytes

  const CAPACITY: nat := 10

  /** A send after the receiver has taken `taken` events: the queue then, and whether the event got in. */
  function Sent<T>(queue: seq<T>, taken: nat, event: T): (seq<T>, bool) {
    var left := queue[Smaller(taken, |queue|)..];
    if |left| < CAPACITY then (left + [event], true) else (left, false)
  }

  /** A series of sends: the queue afterwards, and the events that got in. */
  function Deliver<T>(queue: seq<T>, events: seq<T>, taken: seq<nat>): (seq<T>, seq<T>)
    requires |taken| == |events|
    decreases |events|
  {
    if events == [] then (queue, [])
    else
      var last := |events| - 1;
      var (before, accepted) := Deliver(queue, events[..last], taken[..last]);
      var (after, fits) := Sent(before, taken[last], events[last]);
      (after, if fits then accepted + [events[last]] else accepted)
  }

  /** What a series of sends makes of a queue and of the record of everything that ever got in. */
  ghost predicate Delivered<T>(queue: seq<T>, log: seq<T>, queue': seq<T>, log': seq<T>, events: seq<T>,
                               taken: seq<nat>) {
    && |taken| == |events|
    && queue' == Deliver(queue, events, taken).0
    && log' == log + Deliver(queue, events, taken).1
  }

  lemma NothingDelivered<T>(queue: seq<T>, log: seq<T>)
    ensures Delivered(queue, log, queue, log, [], [])
  {
  }

  lemma OneMoreDelivered<T>(queue: seq<T>, log: seq<T>, queue': seq<T>, log': seq<T>, events: seq<T>, taken: seq<nat>,
                            event: T, n: nat)
    requires Delivered(queue, log, queue', log', events, taken)
    ensures var (after, fits) := Sent(queue', n, event);
            Delivered(queue, log, after, if fits then log' + [event] else log', events + [event], taken + [n])
  {
    var all, times := events + [event], taken + [n];
    assert all[..|all| - 1] == events && times[..|all| - 1] == taken;
    Regrouped(log, Deliver(queue, events, taken).1, [event]);
  }

  lemma LastApart<T>(a: seq<T>, b: seq<T>)
    requires b != []
    ensures (a + b[..|b| - 1]) + [b[|b| - 1]] == a + b
  {
  }

  lemma {:induction false} DeliveredInTurn<T>(queue: seq<T>, log: seq<T>, queue': seq<T>, log': seq<T>, events: seq<T>,
                                              taken: seq<nat>, queue'': seq<T>, log'': seq<T>, more: seq<T>,
                                              later: seq<nat>)
    requires Delivered(queue, log, queue', log', events, taken) && Delivered(queue', log', queue'', log'', more, later)
    ensures Delivered(queue, log, queue'', log'', events + more, taken + later)
    decreases |more|
  {
    if more == [] {
      assert events + more == events && taken + later == taken;
      assert log' + [] == log';
    } else {
      var last := |more| - 1;
      var (before, accepted) := Deliver(queue', more[..last], later[..last]);
      DeliveredInTurn(queue, log, queue', log', events, taken, before, log' + accepted, more[..last], later[..last]);
      OneMoreDelivered(queue, log, before, log' + accepted, events + more[..last], taken + later[..last], more[last],
                       later[last]);
      LastApart(events, more);
      LastApart(taken, later);
      Regrouped(log', accepted, [more[last]]);
    }
  }

  class Channel<T> {
    var queue: seq<T>
    ghost var accepted: seq<T>   // every event that ever got in, in order

    constructor ()
      ensures queue == [] && accepted == []
    {
      queue, accepted := [], [];
    }

    /** The receiver may have taken any number of events before the send. */
    method Send(event: T) returns (ghost taken: nat)
      modifies this
      ensures queue == Sent(old(queue), taken, event).0
      ensures accepted == if Sent(old(queue), taken, event).1 then old(accepted) + [event] else old(accepted)
    {
      var n := Receive();
      taken := n;
      if |queue| < CAPACITY {
        queue := queue + [event];
        accepted := accepted + [event];
      }
    }

    method Receive() returns (n: nat)
      modifies this`queue
      ensures n <= |old(queue)| && queue == old(queue)[n..]
    {
      assert 0 <= |queue|;   // 0 is such an n
      n :| 0 <= n <= |queue|;
      queue := queue[n..];
    }
  }

  // How much of a series gets in.

  /** The receiver takes nothing meanwhile. */
  ghost predicate Undisturbed(taken: seq<nat>) {
    forall i :: 0 <= i < |taken| ==> taken[i] == 0
  }

  function Room<T>(queue: seq<T>): nat {
    if |queue| < CAPACITY then CAPACITY - |queue| else 0
  }

  /** With nobody receiving exactly the first events that fit get in. */
  lemma {:induction false} FirstThatFit<T>(queue: seq<T>, events: seq<T>, taken: seq<nat>)
    requires |taken| == |events| && Undisturbed(taken)
    ensures var n := Smaller(Room(queue), |events|);
            Deliver(queue, events, taken) == (queue + events[..n], events[..n])
    decreases |events|
  {
    if events == [] {
      assert queue + events[..0] == queue;
    } else {
      var last := |events| - 1;
      FirstThatFit(queue, events[..last], taken[..last]);
      var n := Smaller(Room(queue), last);
      assert events[..last][..n] == events[..n];
      assert (queue + events[..n])[0..] == queue + events[..n];
      if n == last && |queue| + last < CAPACITY {
        assert events[..last] + [events[last]] == events[..|events|];
        assert (queue + events[..last]) + [events[last]] == queue + events[..|events|];
      }
    }
  }

  /** Whatever the receiver takes meanwhile, the first events that fit the queue as it is get in at least. */
  lemma {:induction false} ReceivingOnlyHelps<T>(queue: seq<T>, events: seq<T>, taken: seq<nat>)
    requires |taken| == |events|
    ensures var (after, accepted) := Deliver(queue, events, taken);
            && |after| <= |queue| + |accepted|
            && events[..Smaller(Room(queue), |events|)] <= accepted
            && |accepted| <= |events|
    decreases |events|
  {
    if events != [] {
      var last := |events| - 1;
      ReceivingOnlyHelps(queue, events[..last], taken[..last]);
      var n := Smaller(Room(queue), last);
      assert events[..last][..n] == events[..n];
      var (before, accepted) := Deliver(queue, events[..last], taken[..last]);
      if last < Room(queue) {
        assert n == last && events[..n] <= accepted && accepted == events[..last];
        assert events[..last] + [events[last]] == events[..|events|];
      } else {
        assert events[..n] == events[..Smaller(Room(queue), |events|)];
      }
    }
  }

  /** With nobody receiving, everything gets in exactly when the queued and the new events together are at most ten. */
  lemma EverythingFitsIff<T>(queue: seq<T>, events: seq<T>, taken: seq<nat>)
    requires |taken| == |events| && Undisturbed(taken) && |queue| <= CAPACITY
    ensures Deliver(queue, events, taken).1 == events <==> |queue| + |events| <= CAPACITY
  {
    FirstThatFit(queue, events, taken);
    assert events[..|events|] == events;
  }
}
