/** The two rate limiters: a sliding window per socket, and a fixed window per key in Redis. */
module RateLimits {
  // ----- the sliding window of one socket -----

  /** The accepted events still inside the window. */
  function InWindow(hits: seq<int>, now: int, windowMs: int): seq<int>
    decreases |hits|
  {
    if hits == [] then []
    else if hits[0] <= now - windowMs then InWindow(hits[1..], now, windowMs)
    else hits
  }

  predicate NonDecreasing(ts: seq<int>) {
    forall i, j :: 0 <= i < j < |ts| ==> ts[i] <= ts[j]
  }

  class SocketLimiter {
    var hits: seq<int>
    const max: nat
    const windowMs: int

    constructor (max: nat, windowMs: int)
      ensures hits == [] && this.max == max && this.windowMs == windowMs
    {
      hits, this.max, this.windowMs := [], max, windowMs;
    }

    /** One event: forgets what left the window, then accepts if there is room. */
    method OnEvent(now: int) returns (accepted: bool)
      modifies this
      ensures accepted <==> |InWindow(old(hits), now, windowMs)| < max
      ensures hits == InWindow(old(hits), now, windowMs) + if accepted then [now] else []
    {
      while |hits| > 0 && hits[0] <= now - windowMs
        invariant InWindow(hits, now, windowMs) == InWindow(old(hits), now, windowMs)
        decreases |hits|
      {
        hits := hits[1..];
      }
      accepted := |hits| < max;
      if accepted {
        hits := hits + [now];
      }
    }
  }

  /** The queue after a run of events, and the times of all events accepted on the way. */
  function AfterEvents(hits: seq<int>, log: seq<int>, events: seq<int>, max: nat, windowMs: int): (seq<int>, seq<int>)
    decreases |events|
  {
    if events == [] then (hits, log)
    else
      var kept := InWindow(hits, events[0], windowMs);
      if |kept| < max then AfterEvents(kept + [events[0]], log + [events[0]], events[1..], max, windowMs)
      else AfterEvents(kept, log, events[1..], max, windowMs)
  }

  /** The queue is the end of the log, and everything before it left the window by `now`. */
  ghost predicate Tracks(hits: seq<int>, log: seq<int>, now: int, max: nat, windowMs: int) {
    && NonDecreasing(log) && (forall t :: t in log ==> t <= now)
    && |hits| <= |log| && hits == log[|log| - |hits|..] && |hits| <= max
    && (forall i :: 0 <= i < |log| - |hits| ==> log[i] <= now - windowMs)
    && Spaced(log, max, windowMs)
  }

  /** Any `max + 1` accepted events in a row span at least the window. */
  ghost predicate Spaced(log: seq<int>, max: nat, windowMs: int) {
    forall i :: 0 <= i && i + max < |log| ==> log[i + max] - log[i] >= windowMs
  }

  lemma {:induction false} WindowIsSuffix(hits: seq<int>, now: int, windowMs: int)
    requires NonDecreasing(hits)
    ensures var kept := InWindow(hits, now, windowMs);
            && |kept| <= |hits| && kept == hits[|hits| - |kept|..]
            && (forall i :: 0 <= i < |hits| - |kept| ==> hits[i] <= now - windowMs)
            && (forall t :: t in kept ==> t > now - windowMs)
    decreases |hits|
  {
    if hits != [] && hits[0] <= now - windowMs {
      WindowIsSuffix(hits[1..], now, windowMs);
      var kept := InWindow(hits, now, windowMs);
      assert hits[1..][|hits| - 1 - |kept|..] == hits[|hits| - |kept|..];
      forall i | 0 <= i < |hits| - |kept|
        ensures hits[i] <= now - windowMs
      {
        if i > 0 { assert hits[i] == hits[1..][i - 1]; }
      }
    } else {
      forall t | t in hits
        ensures t > now - windowMs
      {
        var k :| 0 <= k < |hits| && hits[k] == t;
      }
    }
  }

  lemma EvictTracks(hits: seq<int>, log: seq<int>, now: int, later: int, max: nat, windowMs: int)
    requires Tracks(hits, log, now, max, windowMs) && now <= later
    ensures Tracks(InWindow(hits, later, windowMs), log, later, max, windowMs)
    ensures forall t :: t in InWindow(hits, later, windowMs) ==> t > later - windowMs
  {
    WindowIsSuffix(hits, later, windowMs);
    var kept := InWindow(hits, later, windowMs);
    assert log[|log| - |hits|..][|hits| - |kept|..] == log[|log| - |kept|..];
    forall i | 0 <= i < |log| - |kept|
      ensures log[i] <= later - windowMs
    {
      if i >= |log| - |hits| { assert log[i] == hits[i - (|log| - |hits|)]; }
    }
  }

  lemma AcceptTracks(kept: seq<int>, log: seq<int>, now: int, max: nat, windowMs: int)
    requires Tracks(kept, log, now, max, windowMs) && |kept| < max
    ensures Tracks(kept + [now], log + [now], now, max, windowMs)
  {
    var log' := log + [now];
    forall i | 0 <= i < |log'|
      ensures log'[i] <= now
    {
      if i < |log| { assert log[i] in log; }
    }
    forall i | 0 <= i && i + max < |log'|
      ensures log'[i + max] - log'[i] >= windowMs
    {
      if i + max < |log| {
        assert log[i + max] - log[i] >= windowMs;
      } else {
        assert i < |log| - |kept|;
      }
    }
  }

  lemma {:induction false} RunTracks(hits: seq<int>, log: seq<int>, now: int, events: seq<int>, max: nat, windowMs: int)
    requires Tracks(hits, log, now, max, windowMs) && NonDecreasing([now] + events)
    ensures var (hits', log') := AfterEvents(hits, log, events, max, windowMs);
            Tracks(hits', log', ([now] + events)[|events|], max, windowMs)
    decreases |events|
  {
    if events != [] {
      var t := events[0];
      var all := [now] + events;
      assert all[0] == now && all[1] == t;
      assert [t] + events[1..] == all[1..];
      EvictTracks(hits, log, now, t, max, windowMs);
      var kept := InWindow(hits, t, windowMs);
      if |kept| < max {
        AcceptTracks(kept, log, t, max, windowMs);
        RunTracks(kept + [t], log + [t], t, events[1..], max, windowMs);
      } else {
        RunTracks(kept, log, t, events[1..], max, windowMs);
      }
    }
  }

  /** The accepted events later than `since`. */
  function Recent(log: seq<int>, since: int): seq<int> {
    if log == [] then []
    else (if log[0] > since then [log[0]] else []) + Recent(log[1..], since)
  }

  lemma {:induction false} RecentSuffix(log: seq<int>, k: nat, since: int)
    requires k <= |log| && NonDecreasing(log)
    requires forall i :: 0 <= i < k ==> log[i] <= since
    requires k < |log| ==> log[k] > since
    ensures Recent(log, since) == log[k..]
    decreases |log|
  {
    if log != [] {
      var rest := log[1..];
      if k > 0 {
        RecentSuffix(rest, k - 1, since);
      } else {
        assert rest != [] ==> rest[0] == log[1] && log[0] <= log[1];
        RecentSuffix(rest, 0, since);
      }
    }
  }

  /** The queue answers for the whole log: both have the same events inside the window. */
  lemma QueueSeesWindow(hits: seq<int>, log: seq<int>, now: int, later: int, max: nat, windowMs: int)
    requires Tracks(hits, log, now, max, windowMs) && now <= later
    ensures InWindow(hits, later, windowMs) == Recent(log, later - windowMs)
  {
    EvictTracks(hits, log, now, later, max, windowMs);
    var kept := InWindow(hits, later, windowMs);
    assert kept != [] ==> kept[0] in kept;
    RecentSuffix(log, |log| - |kept|, later - windowMs);
  }

  /**
   With a clock that never goes back, no `max + 1` accepted events fit into less than `windowMs`,
   and the next event, at any later time `t`, is refused exactly when `max` events were accepted
   in the `windowMs` before it: what the queue has forgotten never matters.
   */
  lemma SlidingWindowBound(events: seq<int>, t: int, max: nat, windowMs: int)
    requires NonDecreasing(events) && (events != [] ==> events[|events| - 1] <= t)
    ensures var (hits, log) := AfterEvents([], [], events, max, windowMs);
            && Spaced(log, max, windowMs)
            && InWindow(hits, t, windowMs) == Recent(log, t - windowMs)
            && |Recent(log, t - windowMs)| <= max
  {
    var now := if events == [] then t else events[0];
    RunTracks([], [], now, events, max, windowMs);
    var (hits, log) := AfterEvents([], [], events, max, windowMs);
    QueueSeesWindow(hits, log, ([now] + events)[|events|], t, max, windowMs);
    EvictTracks(hits, log, ([now] + events)[|events|], t, max, windowMs);
  }

  lemma {:induction false} OneMoreEvent(hits: seq<int>, log: seq<int>, events: seq<int>, t: int, max: nat,
      windowMs: int)
    ensures var (hits', log') := AfterEvents(hits, log, events, max, windowMs);
            AfterEvents(hits, log, events + [t], max, windowMs) == AfterEvents(hits', log', [t], max, windowMs)
    decreases |events|
  {
    if events == [] {
      assert events + [t] == [t];
    } else {
      assert (events + [t])[1..] == events[1..] + [t];
      var kept := InWindow(hits, events[0], windowMs);
      if |kept| < max {
        OneMoreEvent(kept + [events[0]], log + [events[0]], events[1..], t, max, windowMs);
      } else {
        OneMoreEvent(kept, log, events[1..], t, max, windowMs);
      }
    }
  }

  /** An event is accepted exactly when fewer than `max` were accepted in the `windowMs` before it. */
  lemma AcceptedIff(events: seq<int>, t: int, max: nat, windowMs: int)
    requires NonDecreasing(events) && (events != [] ==> events[|events| - 1] <= t)
    ensures var log := AfterEvents([], [], events, max, windowMs).1;
            AfterEvents([], [], events + [t], max, windowMs).1
            == log + if |Recent(log, t - windowMs)| < max then [t] else []
  {
    SlidingWindowBound(events, t, max, windowMs);
    OneMoreEvent([], [], events, t, max, windowMs);
    var (hits, log) := AfterEvents([], [], events, max, windowMs);
    var kept := InWindow(hits, t, windowMs);
    assert AfterEvents(kept + [t], log + [t], [], max, windowMs) == (kept + [t], log + [t]);
    assert AfterEvents(kept, log, [], max, windowMs) == (kept, log);
  }
}
