/**
 Presence in Redis: per user a sorted set of socket leases with a key lifetime of twice the
 lease, membership of the online set, and the time last seen. Lua scripts and pipeline
 entries are atomic. A command carries the moment it was issued, when a server read its
 clock, and runs at a later moment on the same clock.
 */
module PresenceStore {
  import opened Ids
  import opened Options
  import opened Ordering

  const SOCKET_LEASE_MS := 90_000
  const SWEEP_LOCK_MS := 25_000

  /** Socket leases by expiry, and when the whole key expires. An empty sorted set is no key at all. */
  datatype Zset = Zset(leases: map<SocketId, int>, expiresAt: int)

  datatype UserPresence = UserPresence(sockets: Zset, online: bool, lastSeen: Option<int>)

  /** The leases Redis still has: all of them until the key expires, then none. */
  function Leases(z: Zset, now: int): map<SocketId, int> {
    if now > z.expiresAt then map[] else z.leases
  }

  function Unexpired(leases: map<SocketId, int>, issued: int): map<SocketId, int> {
    map s | s in leases && leases[s] > issued :: leases[s]
  }

  datatype Op = Add(socket: SocketId) | Remove(socket: SocketId) | Refresh(socket: SocketId) | Settle

  datatype Command = Command(op: Op, issued: int, now: int)

  function Apply(u: UserPresence, c: Command): UserPresence {
    var leases := Leases(u.sockets, c.now);
    match c.op
    case Add(s) =>
      u.(sockets := Zset(leases[s := c.issued + SOCKET_LEASE_MS], c.now + 2 * SOCKET_LEASE_MS), online := true)
    case Remove(s) => u.(sockets := Zset(leases - {s}, u.sockets.expiresAt))
    case Refresh(s) =>
      if leases == map[] then u.(sockets := Zset(map[], u.sockets.expiresAt))
      else
        u.(sockets := Zset(if s in leases then leases[s := c.issued + SOCKET_LEASE_MS] else leases,
            c.now + 2 * SOCKET_LEASE_MS))
    case Settle =>
      var live := Unexpired(leases, c.issued);
      if live != map[] then u.(sockets := Zset(live, u.sockets.expiresAt))
      else
        UserPresence(Zset(map[], u.sockets.expiresAt), false, if u.online then Some(c.issued) else u.lastSeen)
  }

  /**
   What the scripts answer: ADD_SOCKET the result of SADD, SETTLE the result of SREM, which it
   reaches only when no lease is left. The other commands answer nothing.
   */
  predicate Answer(u: UserPresence, c: Command) {
    match c.op
    case Add(_) => !u.online
    case Settle => Unexpired(Leases(u.sockets, c.now), c.issued) == map[] && u.online
    case _ => false
  }

  function After(u: UserPresence, cs: seq<Command>): UserPresence
    decreases |cs|
  {
    if cs == [] then u else After(Apply(u, cs[0]), cs[1..])
  }

  /** Commands run in clock order and none runs before it was issued. */
  predicate Clocked(now: int, cs: seq<Command>)
    decreases |cs|
  {
    cs == [] || (now <= cs[0].now && cs[0].issued <= cs[0].now && Clocked(cs[0].now, cs[1..]))
  }

  function EndTime(now: int, cs: seq<Command>): int {
    if cs == [] then now else cs[|cs| - 1].now
  }

  lemma {:induction false} ClockedMeans(now: int, cs: seq<Command>)
    ensures Clocked(now, cs) <==>
            && (cs != [] ==> now <= cs[0].now)
            && (forall i :: 0 <= i < |cs| - 1 ==> cs[i].now <= cs[i + 1].now)
            && (forall i :: 0 <= i < |cs| ==> cs[i].issued <= cs[i].now)
    decreases |cs|
  {
    if cs != [] {
      var rest := cs[1..];
      ClockedMeans(cs[0].now, rest);
      assert forall i :: 0 <= i < |rest| ==> rest[i] == cs[i + 1];
      assert forall i :: 0 < i < |cs| ==> cs[i] == rest[i - 1];
    }
  }

  // ----- lease safety -----

  /** The key outlives every lease in it, and whoever has a lease is in the online set. */
  ghost predicate Safe(u: UserPresence, now: int) {
    && u.sockets.expiresAt <= now + 2 * SOCKET_LEASE_MS
    && (forall s :: s in u.sockets.leases ==> u.sockets.leases[s] <= u.sockets.expiresAt - SOCKET_LEASE_MS)
    && (u.sockets.leases != map[] ==> u.online)
  }

  lemma CommandSafe(u: UserPresence, c: Command, now: int)
    requires Safe(u, now) && now <= c.now && c.issued <= c.now
    ensures Safe(Apply(u, c), c.now)
  {
  }

  lemma {:induction false} AlwaysSafe(u: UserPresence, cs: seq<Command>, now: int)
    requires Safe(u, now) && Clocked(now, cs)
    ensures Safe(After(u, cs), EndTime(now, cs)) && now <= EndTime(now, cs)
    decreases |cs|
  {
    if cs != [] {
      CommandSafe(u, cs[0], now);
      AlwaysSafe(Apply(u, cs[0]), cs[1..], cs[0].now);
    }
  }

  /** A lease still running at any later moment has not been dropped with its key, and its user is online. */
  lemma LiveLeaseKept(u: UserPresence, cs: seq<Command>, now: int, s: SocketId, later: int)
    requires Safe(u, now) && Clocked(now, cs)
    requires var z := After(u, cs).sockets; s in z.leases && later < z.leases[s]
    ensures s in Leases(After(u, cs).sockets, later) && After(u, cs).online
  {
    AlwaysSafe(u, cs, now);
  }

  /** Throughout, the socket is renewed before its lease runs out, and it is never removed. */
  predicate KeptUp(s: SocketId, renewed: int, cs: seq<Command>)
    decreases |cs|
  {
    cs == [] ||
    (&& cs[0].now < renewed + SOCKET_LEASE_MS
     && cs[0].op != Remove(s)
     && KeptUp(s, RenewedAt(s, renewed, cs[0]), cs[1..]))
  }

  function RenewedAt(s: SocketId, renewed: int, c: Command): int {
    if c.op == Add(s) || c.op == Refresh(s) then c.issued else renewed
  }

  function LastRenewal(s: SocketId, renewed: int, cs: seq<Command>): int
    decreases |cs|
  {
    if cs == [] then renewed else LastRenewal(s, RenewedAt(s, renewed, cs[0]), cs[1..])
  }

  /** A socket refreshed at gaps shorter than the lease keeps its user online, whatever else goes on. */
  lemma {:induction false} RefreshedStaysOnline(u: UserPresence, cs: seq<Command>, now: int, s: SocketId, renewed: int)
    requires Safe(u, now) && Clocked(now, cs) && KeptUp(s, renewed, cs)
    requires s in u.sockets.leases && u.sockets.leases[s] == renewed + SOCKET_LEASE_MS
    ensures var u' := After(u, cs);
            && u'.online && s in u'.sockets.leases
            && u'.sockets.leases[s] == LastRenewal(s, renewed, cs) + SOCKET_LEASE_MS
    decreases |cs|
  {
    if cs != [] {
      CommandSafe(u, cs[0], now);
      RefreshedStaysOnline(Apply(u, cs[0]), cs[1..], cs[0].now, s, RenewedAt(s, renewed, cs[0]));
    }
  }

  /** A settle leaves a user online if and only if some lease is still running when it is issued. */
  lemma SettleDecides(u: UserPresence, c: Command, now: int)
    requires Safe(u, now) && now <= c.now && c.issued <= c.now && c.op.Settle?
    ensures Apply(u, c).online
            <==> exists s :: s in u.sockets.leases && u.sockets.leases[s] > c.issued && c.now <= u.sockets.expiresAt
    ensures !Apply(u, c).online && u.online ==> Apply(u, c).lastSeen == Some(c.issued)
  {
    var live := Unexpired(Leases(u.sockets, c.now), c.issued);
    if s :| s in Leases(u.sockets, c.now) && Leases(u.sockets, c.now)[s] > c.issued {
      assert s in live;
    } else {
      assert live == map[];
    }
  }

  /** A removed socket has no lease any more; the other leases, and whether the user is shown online, stay. */
  lemma RemoveDropsOne(u: UserPresence, s: SocketId, issued: int, now: int)
    ensures var u' := Apply(u, Command(Remove(s), issued, now));
            && s !in u'.sockets.leases
            && u'.online == u.online && u'.lastSeen == u.lastSeen
            && (forall other, later ::
                  other != s && later >= now ==>
                    (other in Leases(u'.sockets, later) <==> other in Leases(u.sockets, later)))
            && (forall other :: other in u'.sockets.leases ==>
                  other in u.sockets.leases && u'.sockets.leases[other] == u.sockets.leases[other])
  {
  }

  /** Some socket other than `s` holds a lease at time `at`. */
  ghost predicate OtherLease(u: UserPresence, s: SocketId, at: int) {
    exists other :: other != s && other in Leases(u.sockets, at) && u.sockets.leases[other] > at
  }

  /** Removing a socket and settling later leaves the user online exactly if another socket still holds a lease. */
  lemma RemoveThenSettle(u: UserPresence, s: SocketId, removed: int, settled: int)
    requires u.online && removed <= settled
    ensures var u1 := Apply(u, Command(Remove(s), removed, removed));
            var settle := Command(Settle, settled, settled);
            && (Apply(u1, settle).online <==> OtherLease(u, s, settled))
            && (Answer(u1, settle) <==> !OtherLease(u, s, settled))
            && (!OtherLease(u, s, settled) ==> Apply(u1, settle).lastSeen == Some(settled))
  {
    var u1 := Apply(u, Command(Remove(s), removed, removed));
    var live := Unexpired(Leases(u1.sockets, settled), settled);
    if OtherLease(u, s, settled) {
      var other :| other != s && other in Leases(u.sockets, settled) && u.sockets.leases[other] > settled;
      assert other in live;
    } else {
      assert live == map[];
    }
  }

  /** A socket that was added and never renewed holds its lease for 90 seconds from the moment the add was issued. */
  lemma LeaseOfAnAdd(u: UserPresence, s: SocketId, issued: int, now: int, settled: int)
    requires issued <= now <= settled
    ensures var u1 := Apply(u, Command(Add(s), issued, now));
            && u1.online && s in u1.sockets.leases
            && (settled < issued + 90_000 ==> Apply(u1, Command(Settle, settled, settled)).online)
            && (settled >= issued + 90_000 ==> s !in Apply(u1, Command(Settle, settled, settled)).sockets.leases)
  {
    var u1 := Apply(u, Command(Add(s), issued, now));
    if settled < issued + 90_000 {
      assert s in Unexpired(Leases(u1.sockets, settled), settled);
    }
  }

  /** A renewal moves the end of a lease that is there, and never brings one back. */
  lemma RefreshRenewsOnly(u: UserPresence, s: SocketId, issued: int, now: int)
    ensures var u' := Apply(u, Command(Refresh(s), issued, now));
            && u'.online == u.online && u'.lastSeen == u.lastSeen
            && (s in u'.sockets.leases <==> s in Leases(u.sockets, now))
            && (s in u'.sockets.leases ==> u'.sockets.leases[s] == issued + 90_000)
            && (forall other :: other != s ==>
                  && (other in u'.sockets.leases <==> other in Leases(u.sockets, now))
                  && (other in u'.sockets.leases ==> u'.sockets.leases[other] == u.sockets.leases[other]))
  {
  }

  /** The last-seen time is written exactly by the settle that takes a user offline, with the time it was issued. */
  lemma LastSeenMeans(u: UserPresence, c: Command)
    ensures Apply(u, c).lastSeen == if u.online && !Apply(u, c).online then Some(c.issued) else u.lastSeen
    ensures u.online && !Apply(u, c).online ==> c.op == Settle
  {
  }

  // ----- announcements -----

  /** The commands answered with true, in order; `true` for an add and `false` for a settle. */
  function TrueAnswers(u: UserPresence, cs: seq<Command>): seq<bool>
    decreases |cs|
  {
    if cs == [] then []
    else (if Answer(u, cs[0]) then [cs[0].op.Add?] else []) + TrueAnswers(Apply(u, cs[0]), cs[1..])
  }

  /** Each element is the opposite of the one before; `state` stands before the first. */
  predicate Alternating(state: bool, s: seq<bool>)
    decreases |s|
  {
    s == [] || (s[0] != state && Alternating(s[0], s[1..]))
  }

  lemma {:induction false} AlternatingMeans(state: bool, s: seq<bool>)
    ensures Alternating(state, s) <==>
            && (s != [] ==> s[0] != state)
            && forall i :: 0 <= i < |s| - 1 ==> s[i + 1] != s[i]
    decreases |s|
  {
    if s != [] {
      var rest := s[1..];
      AlternatingMeans(s[0], rest);
      assert forall i :: 0 <= i < |rest| ==> rest[i] == s[i + 1];
      assert forall i :: 0 < i < |s| ==> s[i] == rest[i - 1];
    }
  }

  /** A command is answered with true exactly when it moved the user in or out of the online set. */
  lemma WhoAnnounces(u: UserPresence, c: Command)
    ensures Answer(u, c) <==> Apply(u, c).online != u.online
    ensures Answer(u, c) ==> (c.op.Add? && Apply(u, c).online) || (c.op.Settle? && !Apply(u, c).online)
  {
  }

  /**
   The true answers of add and settle strictly alternate, starting from the user's state, and the
   last one is their state.
   */
  lemma {:induction false} AnnouncementsAlternate(u: UserPresence, cs: seq<Command>)
    ensures Alternating(u.online, TrueAnswers(u, cs))
    ensures var a := TrueAnswers(u, cs);
            After(u, cs).online == if a == [] then u.online else a[|a| - 1]
    decreases |cs|
  {
    if cs != [] {
      var u1 := Apply(u, cs[0]);
      var rest := TrueAnswers(u1, cs[1..]);
      WhoAnnounces(u, cs[0]);
      AnnouncementsAlternate(u1, cs[1..]);
      if Answer(u, cs[0]) {
        assert ([u1.online] + rest)[1..] == rest;
      } else {
        assert [] + rest == rest;
      }
    }
  }

  // ----- the store -----

  class RedisPresenceStore {
    var sockets: map<UserId, Zset>
    var online: set<UserId>
    var lastSeen: map<UserId, int>
    var sweepLockedUntil: int

    constructor ()
      ensures sockets == map[] && online == {} && lastSeen == map[]
    {
      sockets, online, lastSeen, sweepLockedUntil := map[], {}, map[], 0;
    }

    ghost function View(u: UserId): UserPresence
      reads this
    {
      UserPresence(
        if u in sockets then sockets[u] else Zset(map[], 0),
        u in online,
        if u in lastSeen then Some(lastSeen[u]) else None)
    }

    method AddSocket(u: UserId, s: SocketId, issued: int, now: int) returns (cameOnline: bool)
      modifies this`sockets, this`online
      ensures View(u) == Apply(old(View(u)), Command(Add(s), issued, now))
      ensures cameOnline == Answer(old(View(u)), Command(Add(s), issued, now))
      ensures forall v: UserId :: v != u ==> View(v) == old(View(v))
    {
      var z := if u in sockets then sockets[u] else Zset(map[], 0);
      sockets := sockets[u := Zset(Leases(z, now)[s := issued + SOCKET_LEASE_MS], now + 2 * SOCKET_LEASE_MS)];
      cameOnline := u !in online;
      online := online + {u};
    }

    method RemoveSocket(u: UserId, s: SocketId, now: int)
      modifies this`sockets
      ensures View(u) == Apply(old(View(u)), Command(Remove(s), now, now))
      ensures forall v: UserId :: v != u ==> View(v) == old(View(v))
    {
      var z := if u in sockets then sockets[u] else Zset(map[], 0);
      sockets := sockets[u := Zset(Leases(z, now) - {s}, z.expiresAt)];
    }

    method Settle(u: UserId, issued: int, now: int) returns (wentOffline: bool)
      modifies this`sockets, this`online, this`lastSeen
      ensures View(u) == Apply(old(View(u)), Command(Op.Settle, issued, now))
      ensures wentOffline == Answer(old(View(u)), Command(Op.Settle, issued, now))
      ensures forall v: UserId :: v != u ==> View(v) == old(View(v))
    {
      var z := if u in sockets then sockets[u] else Zset(map[], 0);
      var live := Unexpired(Leases(z, now), issued);
      sockets := sockets[u := Zset(live, z.expiresAt)];
      if live != map[] {
        return false;
      }
      wentOffline := u in online;
      online := online - {u};
      if wentOffline {
        lastSeen := lastSeen[u := issued];
      }
    }

    /** Extends the leases of sockets that are still registered; never registers a removed one again. */
    method Refresh(entries: seq<(UserId, SocketId)>, issued: int, now: int)
      modifies this`sockets
      ensures forall u: UserId :: View(u) == After(old(View(u)), RefreshesOf(u, entries, issued, now))
    {
      var i := 0;
      while i < |entries|
        invariant 0 <= i <= |entries|
        invariant forall u: UserId ::
                    After(View(u), RefreshesOf(u, entries[i..], issued, now)) ==
                    After(old(View(u)), RefreshesOf(u, entries, issued, now))
        invariant online == old(online) && lastSeen == old(lastSeen)
      {
        assert entries[i..][1..] == entries[i + 1..];
        RefreshOne(entries[i].0, entries[i].1, issued, now);
        i := i + 1;
      }
      assert entries[i..] == [];
    }

    method RefreshOne(u: UserId, s: SocketId, issued: int, now: int)
      modifies this`sockets
      ensures View(u) == Apply(old(View(u)), Command(Op.Refresh(s), issued, now))
      ensures forall v: UserId :: v != u ==> View(v) == old(View(v))
    {
      var z := if u in sockets then sockets[u] else Zset(map[], 0);
      var leases := Leases(z, now);
      if leases == map[] {
        sockets := sockets[u := Zset(map[], z.expiresAt)];
      } else {
        sockets := sockets[u := Zset(if s in leases then leases[s := issued + SOCKET_LEASE_MS] else leases,
            now + 2 * SOCKET_LEASE_MS)];
      }
    }

    /** Settles every user in the online set, unless another server swept in the last 25 seconds. */
    method Sweep(now: int) returns (wentOffline: seq<UserId>)
      modifies this
      ensures now < old(sweepLockedUntil) ==> wentOffline == [] && forall u: UserId :: View(u) == old(View(u))
      ensures now >= old(sweepLockedUntil) ==>
                && sweepLockedUntil == now + 25_000
                && (forall u: UserId :: View(u) ==
                      if u in old(online) then Apply(old(View(u)), Command(Op.Settle, now, now)) else old(View(u)))
                && (forall u :: u in wentOffline <==> u in old(online) && u !in online)
                && Distinct(wentOffline)
    {
      wentOffline := [];
      if now < sweepLockedUntil {
        return;
      }
      sweepLockedUntil := now + SWEEP_LOCK_MS;
      var rest := online;
      while rest != {}
        invariant rest <= old(online) && sweepLockedUntil == now + SWEEP_LOCK_MS
        invariant forall u: UserId :: View(u) ==
                    if u in old(online) && u !in rest
                    then Apply(old(View(u)), Command(Op.Settle, now, now))
                    else old(View(u))
        invariant Distinct(wentOffline)
        invariant forall u :: u in wentOffline <==> u in old(online) && u !in rest && !View(u).online
        decreases rest
      {
        var u :| u in rest;
        rest := rest - {u};
        var offline := Settle(u, now, now);
        if offline {
          DistinctAppend(wentOffline, u);
          wentOffline := wentOffline + [u];
        }
      }
    }
  }

  function RefreshesOf(u: UserId, entries: seq<(UserId, SocketId)>, issued: int, now: int): seq<Command>
    decreases |entries|
  {
    if entries == [] then []
    else if entries[0].0 == u then
      [Command(Refresh(entries[0].1), issued, now)] + RefreshesOf(u, entries[1..], issued, now)
    else RefreshesOf(u, entries[1..], issued, now)
  }

  /** The refreshes of a user are one for each of their entries, in order, issued and run when the whole pipeline is. */
  lemma {:induction false} RefreshesMeans(u: UserId, entries: seq<(UserId, SocketId)>, issued: int, now: int,
      c: Command)
    ensures c in RefreshesOf(u, entries, issued, now) <==>
            exists i :: 0 <= i < |entries| && entries[i].0 == u && c == Command(Refresh(entries[i].1), issued, now)
    decreases |entries|
  {
    if entries != [] {
      RefreshesMeans(u, entries[1..], issued, now, c);
      if i :| 0 <= i < |entries| && entries[i].0 == u && c == Command(Refresh(entries[i].1), issued, now) {
        if i > 0 { assert entries[1..][i - 1] == entries[i]; }
      }
      if i :| && 0 <= i < |entries| - 1 && entries[1..][i].0 == u
              && c == Command(Refresh(entries[1..][i].1), issued, now)
      {
        assert entries[i + 1] == entries[1..][i];
      }
    }
  }
}
