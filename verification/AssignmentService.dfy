/**
 Routing on one server with nothing else running: the loops of `assignNow`, `drainQueue`,
 `requeueAgentChats` and `rebalance` over the two record stores.
 */
module AssignmentService {
  import opened Options
  import opened Counting
  import opened Desk
  import opened Ordering
  import opened Routing
  import opened Stores

  datatype Outcome = Assigned | NoAgent | Skipped

  /** The outcome of asking Redis for the rebalance lock. */
  datatype Lock = NotReady | Acquired | Taken

  /** The filter and the stable sort of `candidatesFor`. */
  method Ranked(r: Roster, d: Db, topic: Topic) returns (candidates: seq<AgentId>)
    ensures IsRanking(r, d, topic, candidates)
  {
    var rest := set a: AgentId | a in r.agents && Available(r, d, a);
    ghost var available := rest;
    candidates := [];
    while rest != {}
      invariant rest <= available && Distinct(candidates)
      invariant forall a :: a in candidates <==> a in available - rest
      invariant forall i, j :: 0 <= i < j < |candidates| ==> Ahead(r, d, topic, candidates[i], candidates[j])
      invariant forall a, k :: a in rest && 0 <= k < |candidates| ==> Ahead(r, d, topic, candidates[k], a)
      decreases rest
    {
      BestExists(r, d, topic, rest);
      var best :| best in rest && forall b :: b in rest ==> Ahead(r, d, topic, best, b);
      DistinctAppend(candidates, best);
      candidates, rest := candidates + [best], rest - {best};
    }
  }

  /** The agent an open thread is with. */
  function KeptBy(x: Conversation): Option<AgentId> {
    if x.status == Open then x.assignedAgentId else None
  }

  /** Did not choose offline, and is connected or was seen at most a minute ago. */
  predicate KeepsChats(r: Roster, profiles: map<AgentId, Profile>, a: AgentId, now: int) {
    && a in profiles && profiles[a].availability != Offline
    && a in r.presence
    && (r.presence[a].online || (r.presence[a].lastSeen.Some? && now - r.presence[a].lastSeen.value <= 60_000))
  }

  class AssignmentService {
    const agents: AgentsService
    const conversations: ConversationsService
    /** What the user directory and the presence store answer throughout the call. */
    const roster: Roster
    var draining: bool

    constructor (agents: AgentsService, conversations: ConversationsService, roster: Roster)
      ensures this.agents == agents && this.conversations == conversations && this.roster == roster && !draining
    {
      this.agents, this.conversations, this.roster := agents, conversations, roster;
      draining := false;
    }

    ghost function View(): Db
      reads this, agents, conversations
    {
      Db(agents.profiles, conversations.conversations)
    }

    /** The available agents, best first. */
    method CandidatesFor(topic: Topic) returns (candidates: seq<AgentId>)
      modifies agents
      ensures View() == EnsureProfiles(old(View()), roster.agents)
      ensures IsRanking(roster, View(), topic, candidates)
    {
      agents.EnsureProfiles(roster.agents);
      candidates := Ranked(roster, Db(agents.profiles, conversations.conversations), topic);
    }

    /**
     Tries the candidates in order: reserve a slot, assign, undo the reservation when the
     thread is no longer free. Holds of any candidate list and any state of the records.
     */
    method TryCandidates(c: ConversationId, candidates: seq<AgentId>)
      returns (outcome: Outcome, ghost k: nat, ghost at: int)
      requires forall a :: a in candidates ==> a in agents.profiles
      modifies agents, conversations
      ensures k <= |candidates| && (forall i :: 0 <= i < k ==> !HasRoom(old(View()), candidates[i]))
      ensures outcome.NoAgent? <==> k == |candidates|
      ensures outcome.NoAgent? ==> View() == old(View())
      ensures k < |candidates| ==> HasRoom(old(View()), candidates[k])
      ensures outcome.Assigned? ==>
              CanReassign(old(View()), c, None) && View() == AssignTo(old(View()), c, candidates[k], at)
      ensures outcome.Skipped? ==>
                !CanReassign(old(View()), c, None)
                && View() == ReleaseSlot(TakeSlot(old(View()), candidates[k], None, at), candidates[k])
    {
      var i := 0;
      at := 0;
      while i < |candidates|
        invariant 0 <= i <= |candidates| && View() == old(View())
        invariant forall j :: 0 <= j < i ==> !HasRoom(old(View()), candidates[j])
      {
        assert candidates[i] in candidates;
        var now: int := *; // new Date()
        var reserved := agents.ReserveSlot(candidates[i], false, now);
        if reserved {
          var won := conversations.AssignIfUnassigned(c, candidates[i]);
          if !won {
            agents.ReleaseSlot(candidates[i]);
            return Skipped, i, now;
          }
          return Assigned, i, now;
        }
        i := i + 1;
      }
      outcome, k := NoAgent, i;
    }

    /** Gives a waiting thread to the one agent the ranking puts first, if anyone is available. */
    method AutoAssign(c: ConversationId) returns (outcome: Outcome, ghost a: AgentId, ghost at: int)
      modifies agents, conversations
      ensures outcome.Skipped? <==> !CanReassign(old(View()), c, None)
      ensures outcome.Skipped? ==> View() == old(View())
      ensures outcome.NoAgent? ==>
              NoneAvailable(roster, old(View())) && View() == EnsureProfiles(old(View()), roster.agents)
      ensures outcome.Assigned? ==>
                && Chosen(roster, old(View()), old(View()).conversations[c].topic, a)
                && View() == RouteTo(roster, old(View()), c, a, at)
    {
      a, at := 0, 0;
      var threads := conversations.conversations;
      if c !in threads || threads[c].status.Closed? || threads[c].assignedAgentId.Some? {
        return Skipped, a, at;
      }
      ghost var d := View();
      EnsureFills(roster, d, roster.agents);
      var candidates := CandidatesFor(threads[c].topic);
      ghost var d1 := View();
      ghost var k: nat;
      outcome, k, at := TryCandidates(c, candidates);
      if outcome.NoAgent? {
        RankedNone(roster, d, d1, threads[c].topic, candidates);
      } else {
        a := candidates[k];
        RankedFirst(roster, d, d1, threads[c].topic, candidates, k);
      }
    }

    /**
     Works through the listing `queue` from the front; the first `taken` threads of it found an agent.
     */
    method DrainQueue() returns (ghost queue: seq<ConversationId>, ghost taken: nat)
      modifies this`draining, agents, conversations
      ensures draining == old(draining)
      ensures old(draining) ==> View() == old(View())
      ensures Fills(roster, old(View()), View())
      ensures !old(draining) ==>
                && IsQueueListing(old(View()), 50, queue)
                && Drained(roster, old(View()), View(), queue, taken)
    {
      queue, taken := [], 0;
      if draining {
        FillsReflexive(roster, View());
        return;
      }
      draining := true;
      var listed := conversations.ListQueue(QUEUE_LIMIT);
      queue := listed;
      ghost var d0 := View();
      QueueListingIgnoresProfiles(d0, QUEUE_LIMIT, listed);
      FillsReflexive(roster, d0);
      var i := 0;
      while i < |listed|
        invariant 0 <= i <= |listed| && taken == i && draining
        invariant Fills(roster, d0, View())
        invariant TakenExactly(d0, View(), listed, i)
      {
        ghost var d1 := View();
        var outcome, a, at := AutoAssign(listed[i]);
        if outcome.NoAgent? {
          EnsureFills(roster, d1, roster.agents);
          FillsTransitive(roster, d0, d1, View());
          NoneAvailableAfterEnsure(roster, d1);
          break;
        }
        StillWaiting(d0, d1, listed, i);
        RouteFills(roster, d1, listed[i], a, at);
        FillsTransitive(roster, d0, d1, View());
        TookOneMore(roster, d0, d1, listed, i, a, at);
        i := i + 1;
        taken := i;
      }
      draining := false;
    }

    /** Frees the listed threads of an agent, one slot each. Holds of any list and any state of the records. */
    method RequeueListed(a: AgentId, listed: seq<ConversationId>) returns (moved: nat)
      modifies agents, conversations
      ensures View() == RequeueAll(old(View()), a, listed)
      ensures moved == RequeuedCount(old(View()), a, listed)
    {
      moved := 0;
      var i := 0;
      while i < |listed|
        invariant 0 <= i <= |listed|
        invariant RequeueAll(View(), a, listed[i..]) == RequeueAll(old(View()), a, listed)
        invariant moved + RequeuedCount(View(), a, listed[i..]) == RequeuedCount(old(View()), a, listed)
      {
        assert listed[i..][1..] == listed[i + 1..];
        var requeued := conversations.Reassign(listed[i], Some(a), None);
        i := i + 1;
        if !requeued {
          continue;
        }
        agents.ReleaseSlot(a);
        moved := moved + 1;
      }
    }

    /**
     Takes an agent's open chats away and, if there were any, drains the queue they went to; `last`
     is what that drain assigned.
     */
    method RequeueAgentChats(a: AgentId) returns (moved: nat, ghost last: seq<ConversationId>)
      modifies this`draining, agents, conversations
      ensures draining == old(draining)
      ensures moved == OpenCount(old(View()), a)
      ensures Reroutes(roster, old(View()), View(), (b: AgentId) => b == a)
      ensures forall b: AgentId :: b != a || Drift(old(View()), a) >= 0 ==> Drift(View(), b) == Drift(old(View()), b)
      ensures !Eligible(roster, old(View()), a) ==> OpenCount(View(), a) == 0
      ensures moved == 0 ==> View() == old(View())
      ensures moved > 0 && !draining ==> Exhausted(roster, View(), last)
    {
      last := [];
      ghost var d0, gone := View(), (b: AgentId) => b == a;
      var listed := conversations.ListOpenAssignedTo(a);
      moved := RequeueListed(a, listed);
      ghost var d1 := View();
      RequeuedAll(roster, d0, a, listed);
      if moved > 0 {
        var queue, taken := DrainQueue();
        FillsReroutes(roster, d1, View(), gone);
        ReroutesTransitive(roster, d0, d1, View(), gone);
        FrameEligible(roster, d0, d1, a, 0);
        if !Eligible(roster, d0, a) {
          NothingHandedBack(roster, d1, View(), gone, a);
        }
        if !draining {
          last := queue[..taken];
          DrainExhausts(roster, d1, View(), queue, taken);
        }
      }
    }

    /** Frees threads held by non-agents; their slots are not released. */
    method RequeueOrphans(listed: seq<(ConversationId, AgentId)>)
      modifies conversations
      ensures View() == FreeOrphans(old(View()), listed)
    {
      var i := 0;
      while i < |listed|
        invariant 0 <= i <= |listed|
        invariant FreeOrphans(View(), listed[i..]) == FreeOrphans(old(View()), listed)
      {
        assert listed[i..][1..] == listed[i + 1..];
        var requeued := conversations.Reassign(listed[i].0, Some(listed[i].1), None);
        i := i + 1;
      }
    }

    /** Recounts every agent's open chats and overwrites the counters. */
    method Recount()
      modifies agents
      ensures Frame(old(View()), View()) && View().conversations == old(View()).conversations
      ensures CountersExact(roster, View())
    {
      ghost var d0 := View();
      agents.EnsureProfiles(roster.agents);
      var counts := conversations.CountOpenByAgent(roster.agents);
      agents.SyncActiveChats(counts);
      RecountRepairs(roster, d0, counts);
    }

    /**
     The periodic repair, uninterrupted: whatever state the records start in, every current
     agent's counter ends up exact and every open chat with an agent who may keep it.
     */
    method Rebalance(lock: Lock, now: int) returns (ghost last: seq<ConversationId>)
      modifies this`draining, agents, conversations
      ensures draining == old(draining)
      ensures lock.Taken? ==> View() == old(View())
      ensures !lock.Taken? ==>
                && Reroutes(roster, old(View()), View(), Gone(roster, old(View()), now))
                && CountersExact(roster, View())
                && WellPlaced(roster, View(), now)
      ensures !lock.Taken? ==>
                forall c :: c in conversations.conversations && KeptBy(conversations.conversations[c]).Some? ==>
                  && KeptBy(conversations.conversations[c]).value in roster.agents
                  && KeepsChats(roster, agents.profiles, KeptBy(conversations.conversations[c]).value, now)
      ensures !lock.Taken? ==>
                forall c :: && c in old(conversations.conversations)
                            && KeptBy(old(conversations.conversations)[c]).Some?
                            && KeptBy(old(conversations.conversations)[c]).value in roster.agents
                            && KeepsChats(roster, old(agents.profiles),
                                KeptBy(old(conversations.conversations)[c]).value, now) ==>
                  c in conversations.conversations && conversations.conversations[c]
                      == old(conversations.conversations)[c]
      ensures !lock.Taken? && !old(draining) ==> Exhausted(roster, View(), last)
    {
      last := [];
      if lock.Taken? {
        return;
      }
      ghost var d0 := View();
      ghost var gone := Gone(roster, d0, now);
      Recount();
      var i := 0;
      while i < |roster.agents|
        invariant 0 <= i <= |roster.agents| && draining == old(draining)
        invariant Reroutes(roster, d0, View(), gone) && CountersExact(roster, View())
        invariant forall k :: 0 <= k < i && MustRequeue(roster, d0, roster.agents[k], now) ==>
                    OpenCount(View(), roster.agents[k]) == 0
      {
        ghost var d1 := View();
        var a := roster.agents[i];
        var db := Db(agents.profiles, conversations.conversations);
        FrameEligible(roster, d0, d1, a, now);
        if MustRequeue(roster, db, a, now) {
          var moved, handed := RequeueAgentChats(a);
          RequeueRound(roster, d0, d1, View(), now, i);
        }
        i := i + 1;
      }
      ghost var d2 := View();
      var orphans := conversations.ListOpenAssignedOutside(roster.agents);
      RequeueOrphans(orphans);
      ghost var d3 := View();
      OrphanRound(roster, d0, d2, d3, now, orphans);
      var queue, taken := DrainQueue();
      FinalRound(roster, d0, d3, View(), now);
      PlacedAndKept(roster, d0, View(), now);
      if !draining {
        last := queue[..taken];
        DrainExhausts(roster, d3, View(), queue, taken);
      }
    }
  }

  lemma RequeuedAll(r: Roster, d: Db, a: AgentId, listed: seq<ConversationId>)
    requires Distinct(listed) && |listed| == OpenCount(d, a)
    requires forall c :: c in listed <==> c in d.conversations && HeldBy(a)(d.conversations[c])
    ensures var d' := RequeueAll(d, a, listed);
            && RequeuedCount(d, a, listed) == OpenCount(d, a)
            && Reroutes(r, d, d', (b: AgentId) => b == a)
            && (forall b: AgentId :: b != a || Drift(d, a) >= 0 ==> Drift(d', b) == Drift(d, b))
            && OpenCount(d', a) == 0
  {
    var d' := RequeueAll(d, a, listed);
    RequeuedCountAll(d, a, listed);
    RequeueFrees(d, a, listed);
    FreesReroutes(r, d, d', a, (b: AgentId) => b == a);
    forall b: AgentId | b != a || Drift(d, a) >= 0
      ensures Drift(d', b) == Drift(d, b)
    {
      RequeueKeepsDrift(d, a, listed, b);
    }
    forall c | c in d'.conversations
      ensures !HeldBy(a)(d'.conversations[c])
    {
      assert SameThread(d.conversations[c], d'.conversations[c]);
    }
    CountZero(d'.conversations, HeldBy(a));
  }

  /** Requeueing one more agent repairs their chats and spoils nothing repaired before. */
  lemma RequeueRound(r: Roster, d0: Db, d1: Db, d2: Db, now: int, i: nat)
    requires i < |r.agents| && MustRequeue(r, d1, r.agents[i], now)
    requires Reroutes(r, d0, d1, Gone(r, d0, now)) && CountersExact(r, d1)
    requires Reroutes(r, d1, d2, (b: AgentId) => b == r.agents[i])
    requires forall b: AgentId :: b != r.agents[i] || Drift(d1, r.agents[i]) >= 0 ==> Drift(d2, b) == Drift(d1, b)
    requires !Eligible(r, d1, r.agents[i]) ==> OpenCount(d2, r.agents[i]) == 0
    requires forall k :: 0 <= k < i && MustRequeue(r, d0, r.agents[k], now) ==> OpenCount(d1, r.agents[k]) == 0
    ensures Reroutes(r, d0, d2, Gone(r, d0, now)) && CountersExact(r, d2)
    ensures forall k :: 0 <= k <= i && MustRequeue(r, d0, r.agents[k], now) ==> OpenCount(d2, r.agents[k]) == 0
  {
    var a := r.agents[i];
    FrameEligible(r, d0, d1, a, now);
    ReroutesWeaken(r, d1, d2, (b: AgentId) => b == a, Gone(r, d0, now));
    ReroutesTransitive(r, d0, d1, d2, Gone(r, d0, now));
    forall k | 0 <= k < i && MustRequeue(r, d0, r.agents[k], now)
      ensures OpenCount(d2, r.agents[k]) == 0
    {
      FrameEligible(r, d0, d1, r.agents[k], now);
      NothingHandedBack(r, d1, d2, (b: AgentId) => b == a, r.agents[k]);
    }
  }

  /** Agents who must lose their chats, and users who are no longer agents, hold none. */
  ghost predicate Cleared(r: Roster, d: Db, now: int) {
    forall a: AgentId :: NotAgent(r, a) || MustRequeue(r, d, a, now) ==> OpenCount(d, a) == 0
  }

  lemma OrphanRound(r: Roster, d0: Db, d2: Db, d3: Db, now: int, orphans: seq<(ConversationId, AgentId)>)
    requires d3 == FreeOrphans(d2, orphans)
    requires forall p :: p in orphans <==>
               p.0 in d2.conversations && HeldBy(p.1)(d2.conversations[p.0]) && p.1 !in r.agents
    requires Reroutes(r, d0, d2, Gone(r, d0, now)) && CountersExact(r, d2)
    requires forall k :: 0 <= k < |r.agents| && MustRequeue(r, d0, r.agents[k], now) ==> OpenCount(d2, r.agents[k]) == 0
    ensures Reroutes(r, d0, d3, Gone(r, d0, now)) && CountersExact(r, d3) && Cleared(r, d3, now)
  {
    OrphansEffect(r, d2, orphans);
    ReroutesWeaken(r, d2, d3, Outsiders(r), Gone(r, d0, now));
    ReroutesTransitive(r, d0, d2, d3, Gone(r, d0, now));
    forall a: AgentId | NotAgent(r, a) || MustRequeue(r, d3, a, now)
      ensures OpenCount(d3, a) == 0
    {
      FrameEligible(r, d0, d3, a, now);
      FrameEligible(r, d0, d2, a, now);
      if !NotAgent(r, a) {
        NothingHandedBack(r, d2, d3, Outsiders(r), a);
      } else {
        OutsiderHoldsNothing(r, d2, orphans, a);
      }
    }
  }

  lemma OutsiderHoldsNothing(r: Roster, d: Db, orphans: seq<(ConversationId, AgentId)>, a: AgentId)
    requires forall p :: p in orphans <==>
               p.0 in d.conversations && HeldBy(p.1)(d.conversations[p.0]) && p.1 !in r.agents
    requires NotAgent(r, a)
    ensures OpenCount(FreeOrphans(d, orphans), a) == 0
  {
    var d' := FreeOrphans(d, orphans);
    OrphansEffect(r, d, orphans);
    forall c | c in d'.conversations
      ensures !HeldBy(a)(d'.conversations[c])
    {
      assert SameThread(d.conversations[c], d'.conversations[c]);
      if HeldBy(a)(d.conversations[c]) {
        assert (c, a) in orphans;
      }
    }
    CountZero(d'.conversations, HeldBy(a));
  }

  lemma FinalRound(r: Roster, d0: Db, d3: Db, d4: Db, now: int)
    requires Reroutes(r, d0, d3, Gone(r, d0, now)) && CountersExact(r, d3) && Cleared(r, d3, now)
    requires Fills(r, d3, d4)
    ensures Reroutes(r, d0, d4, Gone(r, d0, now)) && CountersExact(r, d4) && WellPlaced(r, d4, now)
  {
    FillsReroutes(r, d3, d4, Gone(r, d0, now));
    ReroutesTransitive(r, d0, d3, d4, Gone(r, d0, now));
    forall a: AgentId | NotAgent(r, a) || MustRequeue(r, d4, a, now)
      ensures OpenCount(d4, a) == 0
    {
      FrameEligible(r, d3, d4, a, now);
      NothingHandedBack(r, d3, d4, Gone(r, d0, now), a);
    }
    ClearedIsWellPlaced(r, d4, now);
  }

  lemma PlacedAndKept(r: Roster, d0: Db, d: Db, now: int)
    requires Reroutes(r, d0, d, Gone(r, d0, now)) && WellPlaced(r, d, now)
    ensures forall c :: c in d.conversations && KeptBy(d.conversations[c]).Some? ==>
              KeptBy(d.conversations[c]).value in r.agents
                  && KeepsChats(r, d.profiles, KeptBy(d.conversations[c]).value, now)
    ensures forall c :: c in d0.conversations && KeptBy(d0.conversations[c]).Some?
                        && KeptBy(d0.conversations[c]).value in r.agents
                        && KeepsChats(r, d0.profiles, KeptBy(d0.conversations[c]).value, now) ==>
              c in d.conversations && d.conversations[c] == d0.conversations[c]
  {
    forall c | c in d.conversations && KeptBy(d.conversations[c]).Some?
      ensures KeptBy(d.conversations[c]).value in r.agents
              && KeepsChats(r, d.profiles, KeptBy(d.conversations[c]).value, now)
    {
      assert IsOpen(d, c);
      MustRequeueMeans(r, d, KeptBy(d.conversations[c]).value, now);
    }
    forall c | && c in d0.conversations && KeptBy(d0.conversations[c]).Some?
        && KeptBy(d0.conversations[c]).value in r.agents
               && KeepsChats(r, d0.profiles, KeptBy(d0.conversations[c]).value, now)
      ensures c in d.conversations && d.conversations[c] == d0.conversations[c]
    {
      MustRequeueMeans(r, d0, KeptBy(d0.conversations[c]).value, now);
      assert ThreadRerouted(r, d0, d, Gone(r, d0, now), c) && SameThread(d0.conversations[c], d.conversations[c]);
    }
  }

  /** Exactly the first `taken` listed threads got an agent; nothing else moved. */
  ghost predicate TakenExactly(d0: Db, d: Db, queue: seq<ConversationId>, taken: nat)
    requires taken <= |queue|
  {
    && d.conversations.Keys == d0.conversations.Keys
    && (forall c :: c in d0.conversations && c !in queue[..taken] ==> d.conversations[c] == d0.conversations[c])
    && (forall k :: 0 <= k < taken ==>
          queue[k] in d.conversations && d.conversations[queue[k]].assignedAgentId.Some?)
  }

  /** A prefix of the queue was assigned, and it was cut short only for want of an available agent. */
  ghost predicate Drained(r: Roster, d0: Db, d: Db, queue: seq<ConversationId>, taken: nat) {
    && taken <= |queue| && TakenExactly(d0, d, queue, taken)
    && (taken == |queue| || NoneAvailable(r, d))
  }

  /** The threads of `last` have agents, and no more could be assigned from one listing. */
  ghost predicate Exhausted(r: Roster, d: Db, last: seq<ConversationId>) {
    && Distinct(last)
    && (forall c :: c in last ==> IsOpen(d, c) && d.conversations[c].assignedAgentId.Some?)
    && (NoneWaiting(d) || NoneAvailable(r, d) || |last| == QUEUE_LIMIT)
  }

  lemma DrainExhausts(r: Roster, d0: Db, d: Db, queue: seq<ConversationId>, taken: nat)
    requires IsQueueListing(d0, QUEUE_LIMIT, queue) && Drained(r, d0, d, queue, taken) && Frame(d0, d)
    ensures Exhausted(r, d, queue[..taken])
  {
    forall c | c in queue[..taken]
      ensures IsOpen(d, c) && d.conversations[c].assignedAgentId.Some?
    {
      var k :| 0 <= k < taken && queue[k] == c;
      assert c in queue && InQueue(d0, c) && SameThread(d0.conversations[c], d.conversations[c]);
    }
    if taken == |queue| && |queue| < QUEUE_LIMIT {
      assert queue[..taken] == queue;
      forall c | c in d.conversations
        ensures !InQueue(d, c)
      {
        assert c in queue <==> InQueue(d0, c);
      }
    }
  }

  lemma FillsReflexive(r: Roster, d: Db)
    ensures Fills(r, d, d)
  {
  }

  lemma QueueListingIgnoresProfiles(d: Db, limit: nat, q: seq<ConversationId>)
    requires IsQueueListing(Db(map[], d.conversations), limit, q)
    ensures IsQueueListing(d, limit, q)
  {
    var d1 := Db(map[], d.conversations);
    forall c: ConversationId
      ensures InQueue(d, c) == InQueue(d1, c) && WaitingSince(d, c) == WaitingSince(d1, c)
    {
    }
  }

  lemma NoneAvailableAfterEnsure(r: Roster, d: Db)
    requires NoneAvailable(r, d)
    ensures NoneAvailable(r, EnsureProfiles(d, r.agents))
  {
    EnsureFills(r, d, r.agents);
  }

  lemma StillWaiting(d0: Db, d1: Db, queue: seq<ConversationId>, i: nat)
    requires i < |queue| && Distinct(queue) && TakenExactly(d0, d1, queue, i)
    requires forall c :: c in queue ==> InQueue(d0, c)
    ensures CanReassign(d1, queue[i], None)
  {
    assert queue[i] in queue;
  }

  lemma TookOneMore(r: Roster, d0: Db, d1: Db, queue: seq<ConversationId>, i: nat, a: AgentId, at: int)
    requires i < |queue| && Distinct(queue) && TakenExactly(d0, d1, queue, i)
    requires CanReassign(d1, queue[i], None) && Available(r, d1, a)
    ensures TakenExactly(d0, RouteTo(r, d1, queue[i], a, at), queue, i + 1)
  {
    var d := RouteTo(r, d1, queue[i], a, at);
    assert queue[..i + 1] == queue[..i] + [queue[i]];
    assert d.conversations == d1.conversations[queue[i] := d1.conversations[queue[i]].(assignedAgentId := Some(a))];
  }

  lemma RankedNone(r: Roster, d: Db, d1: Db, topic: Topic, candidates: seq<AgentId>)
    requires IsRanking(r, d1, topic, candidates)
    requires forall i :: 0 <= i < |candidates| ==> !HasRoom(d1, candidates[i])
    requires forall a: AgentId :: ProfileOf(d1, a) == ProfileOf(d, a)
    ensures NoneAvailable(r, d)
  {
    forall a | a in r.agents
      ensures !Available(r, d, a)
    {
      if Available(r, d1, a) {
        assert a in candidates;
      }
    }
  }

  /** With nothing else running, the first candidate still has the room it was listed with. */
  lemma RankedFirst(r: Roster, d: Db, d1: Db, topic: Topic, candidates: seq<AgentId>, k: nat)
    requires IsRanking(r, d1, topic, candidates) && k < |candidates|
    requires forall i :: 0 <= i < k ==> !HasRoom(d1, candidates[i])
    requires forall a: AgentId :: ProfileOf(d1, a) == ProfileOf(d, a)
    ensures Chosen(r, d, topic, candidates[k])
  {
    assert candidates[0] in candidates;
    forall b | Available(r, d, b)
      ensures Ahead(r, d, topic, candidates[0], b)
    {
      assert Available(r, d1, b) && b in candidates;
      AheadOrder(r, d1, topic, b, b, b);
    }
  }
}
