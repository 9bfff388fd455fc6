/** The fixed-window request limiter that all servers share through one Redis counter per key. */
module FixedWindow {
  import opened Options

  // ----- the counter, as Redis keeps it -----

  datatype Key = Gone | Live(count: nat, expireAt: Option<int>)

  /** A key past its expiry is as good as deleted. */
  function Lapsed(key: Key, now: int): Key {
    match key
    case Live(_, Some(at)) => if at <= now then Gone else key
    case _ => key
  }

  function Incremented(key: Key, now: int): Key {
    match Lapsed(key, now)
    case Gone => Live(1, None)
    case Live(count, expireAt) => Live(count + 1, expireAt)
  }

  function Expiring(key: Key, now: int, windowMs: nat): Key {
    match Lapsed(key, now)
    case Gone => Gone
    case Live(count, _) => Live(count, Some(now + windowMs))
  }

  class SharedCounter {
    var key: Key

    constructor ()
      ensures key == Gone
    {
      key := Gone;
    }

    /** `MULTI INCR TTL`: the new count, and whether the key has an expiry. */
    method IncrTtl(now: int) returns (count: nat, expires: bool)
      modifies this
      ensures key == Incremented(old(key), now) && key == Live(count, key.expireAt)
      ensures expires == key.expireAt.Some?
    {
      match key {
        case Live(_, Some(at)) => if at <= now { key := Gone; }
        case _ =>
      }
      match key {
        case Gone => key := Live(1, None);
        case Live(n, expireAt) => key := Live(n + 1, expireAt);
      }
      count, expires := key.count, key.expireAt.Some?;
    }

    method Expire(now: int, windowMs: nat)
      modifies this
      ensures key == Expiring(old(key), now, windowMs)
    {
      match key {
        case Gone =>
        case Live(count, expireAt) =>
          if expireAt.Some? && expireAt.value <= now {
            key := Gone;
          } else {
            key := Live(count, Some(now + windowMs));
          }
      }
    }
  }

  class RateLimiter {
    const max: nat
    const windowMs: nat

    constructor (max: nat, windowMs: nat)
      ensures this.max == max && this.windowMs == windowMs
    {
      this.max, this.windowMs := max, windowMs;
    }

    /** One request that meets no other on the way: the EXPIRE follows the count at once. */
    method Handle(counter: SharedCounter, now: int) returns (accepted: bool)
      modifies counter
      ensures var key := Incremented(old(counter.key), now);
              && accepted == (key.count <= max)
              && counter.key == if key.expireAt.None? then Expiring(key, now, windowMs) else key
    {
      var count, expires := counter.IncrTtl(now);
      if !expires {
        counter.Expire(now, windowMs);
      }
      accepted := count <= max;
    }
  }

  // ----- any number of servers -----

  /** One accepted request: when, in which lifetime of the key, and the count it saw. */
  datatype Accepted = Accepted(time: int, life: nat, count: nat)

  /** `born` is when the current lifetime of the key began; `owed` requests still have an EXPIRE to send. */
  datatype State = State(now: int, key: Key, life: nat, born: int, owed: nat, log: seq<Accepted>)

  datatype Step =
    | Hit(time: int)    // a request's INCR and TTL
    | Expire(time: int) // the EXPIRE a request still owes, however late
    | Crash(time: int)  // a server dies before it sends one

  function Start(now: int): State {
    State(now, Gone, 0, now, 0, [])
  }

  function Next(s: State, step: Step, max: nat, windowMs: nat): State {
    match step
    case Hit(t) =>
      var key := Incremented(s.key, t);
      var renewed := Lapsed(s.key, t).Gone?;
      var life := if renewed then s.life + 1 else s.life;
      State(t, key, life, if renewed then t else s.born,
            if key.expireAt.None? then s.owed + 1 else s.owed,
            if key.count <= max then s.log + [Accepted(t, life, key.count)] else s.log)
    case Expire(t) =>
      if s.owed == 0 then s.(now := t)
      else s.(now := t, key := Expiring(s.key, t, windowMs), owed := s.owed - 1)
    case Crash(t) => s.(now := t, owed := if s.owed == 0 then 0 else s.owed - 1)
  }

  function After(s: State, steps: seq<Step>, max: nat, windowMs: nat): State
    decreases |steps|
  {
    if steps == [] then s else After(Next(s, steps[0], max, windowMs), steps[1..], max, windowMs)
  }

  /** A request that finds a key without an expiry owes one EXPIRE; sending it, or dying before, is owing it no more. */
  lemma OwedMeans(s: State, step: Step, max: nat, windowMs: nat)
    ensures Next(s, step, max, windowMs).owed
            == s.owed
               + (if step.Hit? && !(exists n, at :: s.key == Live(n, Some(at)) && at > step.time) then 1 else 0)
               - (if !step.Hit? && s.owed > 0 then 1 else 0)
    ensures Next(s, step, max, windowMs).now == step.time
  {
  }

  /** One clock for all servers, that never goes back. */
  predicate Ordered(now: int, steps: seq<Step>)
    decreases |steps|
  {
    steps == [] || (now <= steps[0].time && Ordered(steps[0].time, steps[1..]))
  }

  function Min(a: nat, b: nat): nat { if a < b then a else b }

  ghost predicate KeyInv(s: State, windowMs: nat) {
    && s.born <= s.now && (s.key.Live? ==> s.key.count >= 1 && s.life >= 1)
    && (s.key.Gone? ==> s.life == 0 || s.born + windowMs <= s.now)
    && (s.key.Live? && s.key.expireAt.Some? ==> s.born + windowMs <= s.key.expireAt.value)
  }

  ghost predicate EntryOk(s: State, e: Accepted, max: nat, windowMs: nat) {
    && 1 <= e.count <= max && 1 <= e.life <= s.life && e.time <= s.now
    && (e.life < s.life ==> e.time <= s.born)
    && (e.life + 1 < s.life ==> e.time + windowMs <= s.born)
    && (e.life == s.life && e.count == 1 ==> e.time == s.born)
    && (e.life < s.life && e.count == 1 ==> e.time + windowMs <= s.born)
    && (e.life == s.life && s.key.Live? ==> e.count <= s.key.count)
  }

  ghost predicate InOrder(a: Accepted, b: Accepted, windowMs: nat) {
    && (a.life < b.life || (a.life == b.life && a.count < b.count))
    && (a.life + 1 < b.life || (a.life < b.life && a.count == 1) ==> b.time - a.time >= windowMs)
  }

  ghost predicate LogInv(s: State, max: nat, windowMs: nat) {
    && (forall e :: e in s.log ==> EntryOk(s, e, max, windowMs))
    && (forall i, j :: 0 <= i < j < |s.log| ==> InOrder(s.log[i], s.log[j], windowMs))
  }

  /**
   The requests accepted in this lifetime of the key are the last of the log, as many as were
   counted, up to the maximum.
   */
  ghost predicate Tail(s: State, max: nat) {
    s.key.Live? ==>
      var n := Min(s.key.count, max);
      n <= |s.log| && forall k :: |s.log| - n <= k < |s.log| ==> s.log[k].life == s.life
  }

  ghost predicate Inv(s: State, max: nat, windowMs: nat) {
    KeyInv(s, windowMs) && LogInv(s, max, windowMs) && Tail(s, max)
  }

  lemma HitKeepsEntries(s: State, t: int, max: nat, windowMs: nat)
    requires Inv(s, max, windowMs) && s.now <= t
    ensures var s' := Next(s, Hit(t), max, windowMs);
            && KeyInv(s', windowMs) && Tail(s', max)
            && (forall e :: e in s'.log ==> EntryOk(s', e, max, windowMs))
  {
    var s' := Next(s, Hit(t), max, windowMs);
    forall e | e in s'.log
      ensures EntryOk(s', e, max, windowMs)
    {
      if e in s.log {
        assert EntryOk(s, e, max, windowMs);
      }
    }
  }

  lemma HitKeepsOrder(s: State, t: int, max: nat, windowMs: nat)
    requires Inv(s, max, windowMs) && s.now <= t
    ensures var log := Next(s, Hit(t), max, windowMs).log;
            forall i, j :: 0 <= i < j < |log| ==> InOrder(log[i], log[j], windowMs)
  {
    var s' := Next(s, Hit(t), max, windowMs);
    var log := s'.log;
    forall i, j | 0 <= i < j < |log|
      ensures InOrder(log[i], log[j], windowMs)
    {
      if j == |s.log| {
        assert log[i] in s.log;
        assert EntryOk(s, log[i], max, windowMs);
      }
    }
  }

  lemma StepKeeps(s: State, step: Step, max: nat, windowMs: nat)
    requires Inv(s, max, windowMs) && s.now <= step.time
    ensures Inv(Next(s, step, max, windowMs), max, windowMs)
  {
    match step
    case Hit(t) =>
      HitKeepsEntries(s, t, max, windowMs);
      HitKeepsOrder(s, t, max, windowMs);
    case _ =>
      var s' := Next(s, step, max, windowMs);
      forall e | e in s'.log
        ensures EntryOk(s', e, max, windowMs)
      {
        assert EntryOk(s, e, max, windowMs);
      }
  }

  lemma {:induction false} AlwaysInv(s: State, steps: seq<Step>, max: nat, windowMs: nat)
    requires Inv(s, max, windowMs) && Ordered(s.now, steps)
    ensures Inv(After(s, steps, max, windowMs), max, windowMs)
    decreases |steps|
  {
    if steps != [] {
      StepKeeps(s, steps[0], max, windowMs);
      AlwaysInv(Next(s, steps[0], max, windowMs), steps[1..], max, windowMs);
    }
  }

  /** Where an accepted request stands when every lifetime is given `max` places. */
  function Place(e: Accepted, max: nat): int {
    e.life * max + e.count
  }

  lemma MulAtLeast(x: nat, y: nat, m: nat)
    requires x <= y
    ensures x * m <= y * m
  {
    assert y * m == x * m + (y - x) * m;
  }

  lemma PlacesGrow(a: Accepted, b: Accepted, max: nat, windowMs: nat)
    requires InOrder(a, b, windowMs) && 1 <= a.count <= max && 1 <= b.count <= max
    ensures Place(a, max) < Place(b, max)
  {
    if a.life < b.life {
      MulAtLeast(a.life + 1, b.life, max);
      assert (a.life + 1) * max == a.life * max + max;
    }
  }

  lemma {:induction false} PlacesApart(log: seq<Accepted>, i: nat, j: nat, max: nat, windowMs: nat)
    requires i <= j < |log|
    requires forall e :: e in log ==> 1 <= e.count <= max
    requires forall i, j :: 0 <= i < j < |log| ==> InOrder(log[i], log[j], windowMs)
    ensures Place(log[j], max) - Place(log[i], max) >= j - i
    decreases j - i
  {
    if i < j {
      PlacesGrow(log[j - 1], log[j], max, windowMs);
      PlacesApart(log, i, j - 1, max, windowMs);
    }
  }

  /**
   However late or out of turn the EXPIREs arrive, accepted requests that lie less than a window
   apart number at most the maximum within one lifetime of the key, and fewer than twice the
   maximum in all: the request that opened a lifetime is already a window away from the next one.
   */
  lemma FixedWindowBound(start: int, steps: seq<Step>, max: nat, windowMs: nat, i: nat, j: nat)
    requires Ordered(start, steps)
    requires var log := After(Start(start), steps, max, windowMs).log;
             i <= j < |log| && log[j].time - log[i].time < windowMs
    ensures j - i + 1 <= 2 * max - 1
    ensures var log := After(Start(start), steps, max, windowMs).log;
            log[i].life == log[j].life ==> j - i + 1 <= max
  {
    AlwaysInv(Start(start), steps, max, windowMs);
    var s := After(Start(start), steps, max, windowMs);
    var log := s.log;
    forall e | e in log
      ensures 1 <= e.count <= max
    {
      assert EntryOk(s, e, max, windowMs);
    }
    PlacesApart(log, i, j, max, windowMs);
    assert log[i] in log && log[j] in log;
    assert i < j ==> InOrder(log[i], log[j], windowMs);
    var a, b := log[i].life, log[j].life;
    assert b == a || b == a + 1;
    assert (a + 1) * max == a * max + max;
  }

  /** A request is refused only when the last `max` accepted ones all fell into the current lifetime of the key. */
  lemma RefusedOnlyWhenFull(start: int, steps: seq<Step>, t: int, max: nat, windowMs: nat)
    requires Ordered(start, steps)
    requires var s := After(Start(start), steps, max, windowMs);
             s.now <= t && Next(s, Hit(t), max, windowMs).log == s.log
    ensures var s := After(Start(start), steps, max, windowMs);
            var s' := Next(s, Hit(t), max, windowMs);
            |s.log| >= max && forall k :: |s.log| - max <= k < |s.log| ==> s.log[k].life == s'.life
  {
    AlwaysInv(Start(start), steps, max, windowMs);
    StepKeeps(After(Start(start), steps, max, windowMs), Hit(t), max, windowMs);
  }

  predicate Bare(key: Key) {
    key.Live? && key.expireAt.None?
  }

  /** Unless a server dies between its two commands, a key without an expiry always has an EXPIRE on its way. */
  lemma {:induction false} NeverStuck(s: State, steps: seq<Step>, max: nat, windowMs: nat)
    requires Bare(s.key) ==> s.owed >= 1
    requires forall k :: 0 <= k < |steps| ==> !steps[k].Crash?
    ensures var s' := After(s, steps, max, windowMs); Bare(s'.key) ==> s'.owed >= 1
    decreases |steps|
  {
    if steps != [] {
      assert !steps[0].Crash?;
      NeverStuck(Next(s, steps[0], max, windowMs), steps[1..], max, windowMs);
    }
  }

  /**
   Whatever was lost before, a request that finds a key without an expiry owes one, and sending it
   gives the key one.
   */
  lemma NextRequestRepairs(s: State, t: int, t': int, max: nat, windowMs: nat)
    requires Bare(s.key) && t <= t'
    ensures var s1 := Next(s, Hit(t), max, windowMs);
            var s2 := Next(s1, Expire(t'), max, windowMs);
            s1.owed == s.owed + 1 && s2.key == Live(s.key.count + 1, Some(t' + windowMs))
  {
  }

  /** A dying server can leave a key that nobody is about to expire. */
  lemma CrashLeavesBareKey(max: nat, windowMs: nat)
    ensures var s := After(Start(0), [Hit(0), Crash(0)], max, windowMs); Bare(s.key) && s.owed == 0
  {
    assert [Hit(0), Crash(0)][1..] == [Crash(0)];
    assert [Crash(0)][1..] == [];
  }

  /** The bound is reached: all but the first of one lifetime at its end, all of the next at its beginning. */
  lemma BoundIsReached()
    ensures var steps := [Hit(0), Expire(0), Hit(9), Hit(10), Expire(10), Hit(11)];
            var log := After(Start(0), steps, 2, 10).log;
            Ordered(0, steps) && |log| == 4 && log[3].time - log[1].time < 10
  {
    var steps := [Hit(0), Expire(0), Hit(9), Hit(10), Expire(10), Hit(11)];
    var s1 := After(Start(0), steps[..1], 2, 10);
    assert steps[1..] == [Expire(0), Hit(9), Hit(10), Expire(10), Hit(11)];
    assert steps[1..][1..] == [Hit(9), Hit(10), Expire(10), Hit(11)];
    assert steps[1..][1..][1..] == [Hit(10), Expire(10), Hit(11)];
    assert steps[1..][1..][1..][1..] == [Expire(10), Hit(11)];
    assert steps[1..][1..][1..][1..][1..] == [Hit(11)];
    assert steps[1..][1..][1..][1..][1..][1..] == [];
  }
}
