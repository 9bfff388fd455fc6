/**
 Grace timers. Each server delays the offline check of a user whose socket closed, and a new
 connection on the same server cancels it. The timers are local while the presence record is
 shared, so the question is whether some check always remains.
 */
module PresenceService {
  import opened Ids
  import opened Options
  import PresenceStore

  const OFFLINE_GRACE_MS := 5_000

  // ----- one server, uninterrupted -----

  function SettleAt(now: int): PresenceStore.Command {
    PresenceStore.Command(PresenceStore.Op.Settle, now, now)
  }

  class PresenceService {
    const store: PresenceStore.RedisPresenceStore
    /** When each pending grace timer fires. */
    var graceTimers: map<UserId, int>

    constructor (store: PresenceStore.RedisPresenceStore)
      ensures this.store == store && graceTimers == map[]
    {
      this.store, graceTimers := store, map[];
    }

    method SocketConnected(u: UserId, s: SocketId, now: int) returns (published: bool)
      modifies this, store
      ensures graceTimers == old(graceTimers) - {u}
      ensures store.View(u)
              == PresenceStore.Apply(old(store.View(u)), PresenceStore.Command(PresenceStore.Add(s), now, now))
      ensures store.View(u).online && (published <==> !old(store.View(u)).online)
      ensures forall v: UserId :: v != u ==> store.View(v) == old(store.View(v))
    {
      if u in graceTimers {
        graceTimers := graceTimers - {u};
      }
      published := store.AddSocket(u, s, now, now);
    }

    method SocketDisconnected(u: UserId, s: SocketId, now: int)
      modifies this, store
      ensures graceTimers == old(graceTimers)[u := now + OFFLINE_GRACE_MS]
      ensures store.View(u)
              == PresenceStore.Apply(old(store.View(u)), PresenceStore.Command(PresenceStore.Remove(s), now, now))
      ensures forall v: UserId :: v != u ==> store.View(v) == old(store.View(v))
    {
      store.RemoveSocket(u, s, now);
      graceTimers := graceTimers[u := now + OFFLINE_GRACE_MS];
    }

    method TimerFired(u: UserId, now: int) returns (published: bool)
      modifies this, store
      ensures graceTimers == old(graceTimers) - {u}
      ensures store.View(u)
              == PresenceStore.Apply(old(store.View(u)), SettleAt(now))
      ensures published <==> old(store.View(u)).online && !store.View(u).online
      ensures forall v: UserId :: v != u ==> store.View(v) == old(store.View(v))
    {
      graceTimers := graceTimers - {u};
      published := store.Settle(u, now, now);
    }

    /** On shutdown every pending check is made at once. */
    method Stop(now: int)
      modifies this, store
      ensures graceTimers == map[]
      ensures forall u: UserId :: store.View(u) ==
                if u in old(graceTimers)
                then PresenceStore.Apply(old(store.View(u)), SettleAt(now))
                else old(store.View(u))
    {
      var pending := graceTimers.Keys;
      graceTimers := map[];
      while pending != {}
        invariant pending <= old(graceTimers).Keys && graceTimers == map[]
        invariant forall u: UserId :: store.View(u) ==
                    if u in old(graceTimers) && u !in pending
                    then PresenceStore.Apply(old(store.View(u)), SettleAt(now))
                    else old(store.View(u))
        decreases pending
      {
        var u :| u in pending;
        pending := pending - {u};
        var published := store.Settle(u, now, now);
      }
    }
  }

  /**
   A socket closes and nothing else happens until its grace timer fires five seconds later: the
   user goes offline, and is announced so, exactly if no other socket holds a lease by then.
   */
  method ClosedForGood(server: PresenceService, u: UserId, s: SocketId, now: int) returns (published: bool)
    requires server.store.View(u).online
    modifies server, server.store
    ensures u !in server.graceTimers
    ensures server.store.View(u).online <==> PresenceStore.OtherLease(old(server.store.View(u)), s, now + 5_000)
    ensures published <==> !server.store.View(u).online
    ensures published ==> server.store.View(u).lastSeen == Some(now + 5_000)
    ensures forall v: UserId :: v != u ==> server.store.View(v) == old(server.store.View(v))
  {
    ghost var before := server.store.View(u);
    server.SocketDisconnected(u, s, now);
    var at := server.graceTimers[u];
    PresenceStore.RemoveThenSettle(before, s, now, at);
    published := server.TimerFired(u, at);
  }

  // ----- many servers, interleaved -----

  /**
   Where one socket stands, on its server. A disconnect is applied only after the connect
   has finished, however early the client closed.
   */
  datatype Phase =
    | Connecting(server: ServerId, closed: bool)
    | Connected(server: ServerId)
    | Removing(server: ServerId)
    | Arming(server: ServerId)
    | Finished

  /** One user: the shared record, the servers with a pending grace timer, and the settles in flight. */
  datatype State = State(
    registered: set<SocketId>,
    online: bool,
    timers: set<ServerId>,
    settling: nat,
    phases: map<SocketId, Phase>)

  datatype Step =
    | Connect(s: SocketId, server: ServerId)
    | Register(s: SocketId)
    | Close(s: SocketId)
    | RemoveSocket(s: SocketId)
    | ArmTimer(s: SocketId)
    | Fire(server: ServerId)
    | Settle(expired: set<SocketId>)
    | Sweep(expired: set<SocketId>)

  /** The settle script: drops expired leases, and takes the user offline if none is left. */
  function Settled(st: State, expired: set<SocketId>): State {
    var left := st.registered - expired;
    st.(registered := left, online := st.online && left != {})
  }

  function Next(st: State, step: Step): State {
    match step
    case Connect(s, server) =>
      if s in st.phases then st
      else st.(timers := st.timers - {server}, phases := st.phases[s := Connecting(server, false)])
    case Register(s) =>
      if s !in st.phases || !st.phases[s].Connecting? then st
      else
        var p := st.phases[s];
        st.(registered := st.registered + {s}, online := true,
            phases := st.phases[s := if p.closed then Removing(p.server) else Connected(p.server)])
    case Close(s) =>
      if s !in st.phases then st
      else if st.phases[s].Connecting? then st.(phases := st.phases[s := Connecting(st.phases[s].server, true)])
      else if st.phases[s].Connected? then st.(phases := st.phases[s := Removing(st.phases[s].server)])
      else st
    case RemoveSocket(s) =>
      if s !in st.phases || !st.phases[s].Removing? then st
      else st.(registered := st.registered - {s}, phases := st.phases[s := Arming(st.phases[s].server)])
    case ArmTimer(s) =>
      if s !in st.phases || !st.phases[s].Arming? then st
      else st.(timers := st.timers + {st.phases[s].server}, phases := st.phases[s := Finished])
    case Fire(server) =>
      if server !in st.timers then st else st.(timers := st.timers - {server}, settling := st.settling + 1)
    case Settle(expired) =>
      if st.settling == 0 then st else Settled(st, expired).(settling := st.settling - 1)
    case Sweep(expired) => Settled(st, expired)
  }

  function After(st: State, steps: seq<Step>): State
    decreases |steps|
  {
    if steps == [] then st else After(Next(st, steps[0]), steps[1..])
  }

  predicate InFlight(p: Phase) {
    p.Connecting? || p.Removing? || p.Arming?
  }

  /** Something will still look at this user: a timer, a settle, or a connect or disconnect under way. */
  ghost predicate CheckPending(st: State) {
    st.timers != {} || st.settling > 0 || exists s :: s in st.phases && InFlight(st.phases[s])
  }

  ghost predicate Watched(st: State) {
    && (forall s :: s in st.registered ==> s in st.phases && (st.phases[s].Connected? || st.phases[s].Removing?))
    && (st.online && st.registered == {} ==> CheckPending(st))
    && (!st.online ==> st.registered == {})
  }

  /** A change of one socket that leaves it in flight leaves a check pending. */
  lemma PendingWitness(st: State, s: SocketId)
    requires s in st.phases && InFlight(st.phases[s])
    ensures CheckPending(st)
  {
  }

  lemma StepWatched(st: State, step: Step)
    requires Watched(st)
    ensures Watched(Next(st, step))
  {
    var st' := Next(st, step);
    if st'.online && st'.registered == {} {
      if st.registered == {} && st.online && st.timers == {} && st.settling == 0 {
        var s :| s in st.phases && InFlight(st.phases[s]);
        assert s in st'.phases && (InFlight(st'.phases[s]) || step.s == s);
      }
      match step
      case Connect(s, _) => if s !in st.phases { PendingWitness(st', s); }
      case RemoveSocket(s) => if s in st.phases && st.phases[s].Removing? { PendingWitness(st', s); }
      case Close(s) => if s in st.phases && InFlight(st'.phases[s]) { PendingWitness(st', s); }
      case _ =>
    }
  }

  lemma {:induction false} AlwaysWatched(st: State, steps: seq<Step>)
    requires Watched(st)
    ensures Watched(After(st, steps))
    decreases |steps|
  {
    if steps != [] {
      StepWatched(st, steps[0]);
      AlwaysWatched(Next(st, steps[0]), steps[1..]);
    }
  }

  /**
   No lost offline: in every interleaving a user who is shown online without a registered socket,
   or without a connected one, still has a check coming, and only sockets with a client or a
   disconnect under way are registered.
   */
  lemma NoLostOffline(st: State, steps: seq<Step>)
    requires Watched(st)
    ensures var st' := After(st, steps);
            && (st'.online && st'.registered == {} ==> CheckPending(st'))
            && (st'.online && (forall s :: s in st'.phases ==> !st'.phases[s].Connected?) ==> CheckPending(st'))
            && (forall s :: s in st'.registered ==>
                  s in st'.phases && (st'.phases[s].Connected? || st'.phases[s].Removing?))
  {
    AlwaysWatched(st, steps);
    var st' := After(st, steps);
    if st'.registered != {} {
      var s :| s in st'.registered;
      if !st'.phases[s].Connected? {
        PendingWitness(st', s);
      }
    }
  }

  // ----- one visit -----

  lemma AfterStep(st: State, step: Step, t: State, rest: seq<Step>)
    requires Next(st, step) == t
    ensures After(st, [step] + rest) == After(t, rest)
  {
    assert ([step] + rest)[1..] == rest;
  }

  const NOBODY := State({}, false, {}, 0, map[])

  /** A socket that connects makes its user online and is connected. */
  lemma Arrives(s: SocketId, server: ServerId)
    ensures After(NOBODY, [Connect(s, server), Register(s)]) == State({s}, true, {}, 0, map[s := Connected(server)])
  {
    var t := State({s}, true, {}, 0, map[s := Connected(server)]);
    var t0 := State({}, false, {}, 0, map[s := Connecting(server, false)]);
    assert Next(NOBODY, Connect(s, server)) == t0;
    assert Next(t0, Register(s)) == t;
    AfterStep(t0, Register(s), t, []);
    AfterStep(NOBODY, Connect(s, server), t0, [Register(s)] + []);
    assert [Connect(s, server)] + ([Register(s)] + []) == [Connect(s, server), Register(s)];
  }

  /**
   When its only socket closes, a user is offline once the timer has fired and its check is done;
   nothing is left pending.
   */
  lemma Leaves(s: SocketId, server: ServerId)
    ensures After(State({s}, true, {}, 0, map[s := Connected(server)]),
                  [Close(s), RemoveSocket(s), ArmTimer(s), Fire(server), Settle({})])
            == State({}, false, {}, 0, map[s := Finished])
  {
    var t0, t1 := State({s}, true, {}, 0, map[s := Connected(server)]),
        State({s}, true, {}, 0, map[s := Removing(server)]);
    var t2, t3 := State({}, true, {}, 0, map[s := Arming(server)]), State({}, true, {server}, 0, map[s := Finished]);
    var t4, t5 := State({}, true, {}, 1, map[s := Finished]), State({}, false, {}, 0, map[s := Finished]);
    assert Next(t2, ArmTimer(s)).timers == t3.timers && Next(t3, Fire(server)).timers == t4.timers;
    assert Next(t4, Settle({})).registered == t5.registered;
    AfterStep(t4, Settle({}), t5, []);
    var q := [Settle({})] + [];
    AfterStep(t3, Fire(server), t4, q);
    q := [Fire(server)] + q;
    AfterStep(t2, ArmTimer(s), t3, q);
    q := [ArmTimer(s)] + q;
    AfterStep(t1, RemoveSocket(s), t2, q);
    q := [RemoveSocket(s)] + q;
    AfterStep(t0, Close(s), t1, q);
    q := [Close(s)] + q;
    assert q == [Close(s), RemoveSocket(s), ArmTimer(s), Fire(server), Settle({})];
  }

  /** A socket that closes before its connect has finished is removed as soon as it has. */
  lemma ClosesEarly(s: SocketId, server: ServerId)
    ensures After(NOBODY, [Connect(s, server), Close(s), Register(s)])
            == State({s}, true, {}, 0, map[s := Removing(server)])
  {
    var t0, t1 := State({}, false, {}, 0, map[s := Connecting(server, false)]),
        State({}, false, {}, 0, map[s := Connecting(server, true)]);
    var t2 := State({s}, true, {}, 0, map[s := Removing(server)]);
    AfterStep(t1, Register(s), t2, []);
    AfterStep(t0, Close(s), t1, [Register(s)] + []);
    assert Next(NOBODY, Connect(s, server)) == t0;
    AfterStep(NOBODY, Connect(s, server), t0, [Close(s)] + ([Register(s)] + []));
    assert [Connect(s, server)] + ([Close(s)] + ([Register(s)] + [])) == [Connect(s, server), Close(s), Register(s)];
  }

  /** A timer is pending from a disconnect until it fires or a connect on its server cancels it, and it settles once. */
  lemma TimersMean(st: State, step: Step, server: ServerId)
    ensures server in Next(st, step).timers <==>
              || (step.ArmTimer? && step.s in st.phases && st.phases[step.s] == Arming(server))
              || (&& server in st.timers && step != Fire(server)
                  && !(step.Connect? && step.s !in st.phases && step.server == server))
    ensures Next(st, step).settling
            == st.settling
               + (if step.Fire? && step.server in st.timers then 1 else 0)
               - (if step.Settle? && st.settling > 0 then 1 else 0)
  {
  }

  /** A sweep takes a user offline exactly if every lease has run out, and forgets those leases. */
  lemma SweepTakesOffline(st: State, expired: set<SocketId>)
    requires st.online
    ensures var st' := Next(st, Sweep(expired));
            && (st'.online <==> exists s :: s in st.registered && s !in expired)
            && (forall s :: s in st'.registered <==> s in st.registered && s !in expired)
            && st'.timers == st.timers && st'.settling == st.settling && st'.phases == st.phases
  {
    var left := st.registered - expired;
    assert forall s :: s in left <==> s in st.registered && s !in expired;
    if left != {} {
      var s :| s in left;
      assert s in st.registered && s !in expired;
    }
  }
}
