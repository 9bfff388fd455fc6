/**
 What one uninterrupted routing decision does to the records: who may receive a chat, in
 which order agents are tried, and what the sequences of decisions made by draining,
 requeueing and rebalancing keep.
 */
module Routing {
  import opened Options
  import opened Counting
  import opened Desk
  import opened Ordering

  datatype Presence = Presence(online: bool, lastSeen: Option<int>)

  /** The approved agents and the presence snapshot, as the other services report them. */
  datatype Roster = Roster(agents: seq<AgentId>, presence: map<AgentId, Presence>)

  const OFFLINE_REQUEUE_AFTER_MS := 60_000

  predicate Connected(r: Roster, a: AgentId) {
    a in r.presence && r.presence[a].online
  }

  /** Chose "online" and is connected. */
  predicate Eligible(r: Roster, d: Db, a: AgentId) {
    a in r.agents && Connected(r, a) && ProfileOf(d, a).availability.Online?
  }

  predicate HasRoom(d: Db, a: AgentId) {
    Active(d, a) < ProfileOf(d, a).maxConcurrentChats
  }

  predicate Available(r: Roster, d: Db, a: AgentId) {
    Eligible(r, d, a) && HasRoom(d, a)
  }

  predicate NoneAvailable(r: Roster, d: Db) {
    forall a :: a in r.agents ==> !Available(r, d, a)
  }

  /** Whose chats a rebalance takes away: gone for more than a minute, or offline by choice. */
  predicate MustRequeue(r: Roster, d: Db, a: AgentId, now: int) {
    var goneTooLong :=
      && !Connected(r, a)
      && (a !in r.presence || r.presence[a].lastSeen.None?
          || now - r.presence[a].lastSeen.value > OFFLINE_REQUEUE_AFTER_MS);
    ProfileOf(d, a).availability.Offline? || goneTooLong
  }

  // ----- the order in which agents are tried -----

  function SkillScore(d: Db, topic: Topic, a: AgentId): int {
    if topic != General && topic in ProfileOf(d, a).skills then 0 else 1
  }

  function LastAssigned(d: Db, a: AgentId): int {
    match ProfileOf(d, a).lastAssignedAt
    case Some(t) => t
    case None => 0
  }

  /** The comparator of `candidatesFor` puts `a` no later than `b`. */
  predicate Precedes(d: Db, topic: Topic, a: AgentId, b: AgentId) {
    var skill := SkillScore(d, topic, a) - SkillScore(d, topic, b);
    var load := Active(d, a) - Active(d, b);
    if skill != 0 then skill < 0
    else if load != 0 then load < 0
    else LastAssigned(d, a) <= LastAssigned(d, b)
  }

  lemma PrecedesOrder(d: Db, topic: Topic, a: AgentId, b: AgentId, c: AgentId)
    ensures Precedes(d, topic, a, b) || Precedes(d, topic, b, a)
    ensures Precedes(d, topic, a, b) && Precedes(d, topic, b, c) ==> Precedes(d, topic, a, c)
  {
  }

  /** The first place of an agent in the directory's list. */
  function Position(agents: seq<AgentId>, a: AgentId): nat
    decreases |agents|
  {
    if agents == [] || agents[0] == a then 0 else 1 + Position(agents[1..], a)
  }

  lemma {:induction false} PositionFound(agents: seq<AgentId>, a: AgentId)
    requires a in agents
    ensures Position(agents, a) < |agents| && agents[Position(agents, a)] == a
    decreases |agents|
  {
    if agents[0] != a {
      assert a in agents[1..];
      PositionFound(agents[1..], a);
    }
  }

  /** The sort is stable: agents the comparator ties stay in the order of the list. */
  predicate Ahead(r: Roster, d: Db, topic: Topic, a: AgentId, b: AgentId) {
    && Precedes(d, topic, a, b)
    && (Precedes(d, topic, b, a) ==> Position(r.agents, a) <= Position(r.agents, b))
  }

  lemma AheadOrder(r: Roster, d: Db, topic: Topic, a: AgentId, b: AgentId, c: AgentId)
    ensures Ahead(r, d, topic, a, b) || Ahead(r, d, topic, b, a)
    ensures Ahead(r, d, topic, a, b) && Ahead(r, d, topic, b, c) ==> Ahead(r, d, topic, a, c)
  {
    PrecedesOrder(d, topic, a, b, c);
    PrecedesOrder(d, topic, b, c, a);
    PrecedesOrder(d, topic, c, a, b);
  }

  /** Among any agents, one can be tried first. */
  lemma BestExists(r: Roster, d: Db, topic: Topic, s: set<AgentId>)
    requires s != {}
    ensures exists a :: a in s && forall b :: b in s ==> Ahead(r, d, topic, a, b)
  {
    var before := (a: AgentId, b: AgentId) => Ahead(r, d, topic, a, b);
    forall a: AgentId, b: AgentId, c: AgentId
      ensures Ahead(r, d, topic, a, b) || Ahead(r, d, topic, b, a)
      ensures Ahead(r, d, topic, a, b) && Ahead(r, d, topic, b, c) ==> Ahead(r, d, topic, a, c)
    {
      AheadOrder(r, d, topic, a, b, c);
    }
    FirstExists(s, before);
    var a :| IsFirst(s, before, a);
    assert forall b :: b in s ==> before(a, b);
  }

  /** The result of `candidatesFor`: the available agents, best first. */
  ghost predicate IsRanking(r: Roster, d: Db, topic: Topic, s: seq<AgentId>) {
    && Distinct(s)
    && (forall a :: a in s <==> Available(r, d, a))
    && (forall i, j :: 0 <= i < j < |s| ==> Ahead(r, d, topic, s[i], s[j]))
  }

  /** The best available agent for a topic. */
  ghost predicate Chosen(r: Roster, d: Db, topic: Topic, a: AgentId) {
    Available(r, d, a) && forall b :: Available(r, d, b) ==> Ahead(r, d, topic, a, b)
  }

  /** There is at most one such agent: the decision is determined by the records. */
  lemma ChosenIsUnique(r: Roster, d: Db, topic: Topic, a: AgentId, b: AgentId)
    requires Chosen(r, d, topic, a) && Chosen(r, d, topic, b)
    ensures a == b
  {
    assert Ahead(r, d, topic, a, b) && Ahead(r, d, topic, b, a);
    PositionFound(r.agents, a);
    PositionFound(r.agents, b);
  }

  /**
   Among available agents that match the topic as well, the chosen one has the fewest active chats,
   among those with as few was given one the longest time ago, and among these comes first in the list.
   */
  lemma ChosenOfEquals(r: Roster, d: Db, topic: Topic, a: AgentId, b: AgentId)
    requires Chosen(r, d, topic, a) && Available(r, d, b)
    requires topic == General || (topic in ProfileOf(d, a).skills <==> topic in ProfileOf(d, b).skills)
    ensures var p, q := ProfileOf(d, a), ProfileOf(d, b);
            var lastA := if p.lastAssignedAt.Some? then p.lastAssignedAt.value else 0;
            var lastB := if q.lastAssignedAt.Some? then q.lastAssignedAt.value else 0;
            && p.activeChats <= q.activeChats
            && (p.activeChats == q.activeChats ==> lastA <= lastB)
            && (p.activeChats == q.activeChats && lastA == lastB ==>
                  forall j :: 0 <= j < |r.agents| && r.agents[j] == b ==> exists i :: 0 <= i <= j && r.agents[i] == a)
  {
    assert Ahead(r, d, topic, a, b);
    PositionFound(r.agents, a);
    forall j | 0 <= j < |r.agents| && r.agents[j] == b
      ensures Position(r.agents, b) <= j
    {
      PositionFirst(r.agents, b, j);
    }
  }

  lemma {:induction false} PositionFirst(agents: seq<AgentId>, a: AgentId, j: nat)
    requires j < |agents| && agents[j] == a
    ensures Position(agents, a) <= j
    decreases j
  {
    if agents[0] != a {
      PositionFirst(agents[1..], a, j - 1);
    }
  }

  /** Who may be chosen at all: listed, connected, online by choice, and below their maximum. */
  lemma AvailableMeans(r: Roster, d: Db, a: AgentId)
    ensures Available(r, d, a) <==>
            && a in r.agents
            && a in r.presence && r.presence[a].online
            && a in d.profiles
            && d.profiles[a].availability == Online
            && d.profiles[a].activeChats < d.profiles[a].maxConcurrentChats
  {
  }

  /**
   Who keeps their chats in a rebalance: anyone not offline by choice who is connected, or was a
   minute ago or later.
   */
  lemma MustRequeueMeans(r: Roster, d: Db, a: AgentId, now: int)
    ensures MustRequeue(r, d, a, now) <==>
            || a !in d.profiles || d.profiles[a].availability == Offline
            || (&& !(a in r.presence && r.presence[a].online)
                && !(a in r.presence && r.presence[a].lastSeen.Some? && now - r.presence[a].lastSeen.value <= 60_000))
  {
  }

  /** What waits: open threads without an agent in which somebody has written. */
  lemma InQueueMeans(d: Db, c: ConversationId)
    ensures InQueue(d, c) <==>
            && c in d.conversations && d.conversations[c].status == Open
            && d.conversations[c].assignedAgentId == None && d.conversations[c].lastMessageAt != None
  {
  }

  // ----- one assignment -----

  function WithProfiles(profiles: map<AgentId, Profile>, agents: seq<AgentId>): map<AgentId, Profile> {
    profiles + (map a | a in agents && a !in profiles :: DEFAULT_PROFILE)
  }

  /** One bulk upsert of missing profiles. */
  function EnsureProfiles(d: Db, agents: seq<AgentId>): Db {
    d.(profiles := WithProfiles(d.profiles, agents))
  }

  function AssignTo(d: Db, c: ConversationId, a: AgentId, now: int): Db {
    Reassign(TakeSlot(d, a, None, now), c, None, Some(a))
  }

  /** What `assignNow` does when the best available agent exists. */
  function RouteTo(r: Roster, d: Db, c: ConversationId, a: AgentId, now: int): Db {
    AssignTo(EnsureProfiles(d, r.agents), c, a, now)
  }

  /** How far an agent's counter is from the real number of open chats. */
  ghost function Drift(d: Db, a: AgentId): int {
    Active(d, a) - OpenCount(d, a)
  }

  ghost predicate SameThread(x: Conversation, y: Conversation) {
    y == x.(assignedAgentId := y.assignedAgentId)
  }

  ghost predicate SameSettings(d: Db, d': Db, a: AgentId) {
    var p, p' := ProfileOf(d, a), ProfileOf(d', a);
    p' == p.(activeChats := p'.activeChats, lastAssignedAt := p'.lastAssignedAt)
  }

  /** Routing touches nothing but assignments, counters and last-assigned times. */
  ghost predicate Frame(d: Db, d': Db) {
    && d'.conversations.Keys == d.conversations.Keys
    && (forall c :: c in d.conversations ==> SameThread(d.conversations[c], d'.conversations[c]))
    && (forall a: AgentId :: SameSettings(d, d', a))
  }

  ghost predicate DriftKept(d: Db, d': Db) {
    forall a: AgentId :: Drift(d', a) == Drift(d, a)
  }

  /** A thread stays as it is, or goes from the queue to an eligible agent. */
  ghost predicate ThreadFilled(r: Roster, d: Db, d': Db, c: ConversationId)
    requires c in d.conversations && c in d'.conversations
  {
    var old_, new_ := d.conversations[c].assignedAgentId, d'.conversations[c].assignedAgentId;
    new_ == old_ || (CanReassign(d, c, None) && new_.Some? && Eligible(r, d, new_.value))
  }

  ghost predicate LoadFilled(d: Db, d': Db, a: AgentId) {
    Active(d', a) == Active(d, a) || Active(d, a) < Active(d', a) <= ProfileOf(d, a).maxConcurrentChats
  }

  /** Only waiting threads were handed out, only to eligible agents, within capacity, and counted. */
  ghost predicate Fills(r: Roster, d: Db, d': Db) {
    && Frame(d, d') && DriftKept(d, d')
    && (forall c :: c in d.conversations ==> ThreadFilled(r, d, d', c))
    && (forall a: AgentId :: LoadFilled(d, d', a))
  }

  lemma EnsureFills(r: Roster, d: Db, agents: seq<AgentId>)
    ensures Fills(r, d, EnsureProfiles(d, agents))
    ensures forall a: AgentId :: ProfileOf(EnsureProfiles(d, agents), a) == ProfileOf(d, a)
  {
    var d' := EnsureProfiles(d, agents);
    forall a: AgentId
      ensures ProfileOf(d', a) == ProfileOf(d, a) && Drift(d', a) == Drift(d, a)
    {
    }
  }

  lemma AssignCounts(d: Db, c: ConversationId, a: AgentId, now: int, b: AgentId)
    requires a in d.profiles && CanReassign(d, c, None)
    ensures Active(AssignTo(d, c, a, now), b) == Active(d, b) + (if b == a then 1 else 0)
    ensures OpenCount(AssignTo(d, c, a, now), b) == OpenCount(d, b) + (if b == a then 1 else 0)
    ensures SameSettings(d, AssignTo(d, c, a, now), b)
  {
    CountUpdate(d.conversations, c, d.conversations[c].(assignedAgentId := Some(a)), HeldBy(b));
  }

  lemma AssignFills(r: Roster, d: Db, c: ConversationId, a: AgentId, now: int)
    requires a in d.profiles && CanReassign(d, c, None) && Available(r, d, a)
    ensures Fills(r, d, AssignTo(d, c, a, now))
  {
    var d' := AssignTo(d, c, a, now);
    forall b: AgentId
      ensures SameSettings(d, d', b) && Drift(d', b) == Drift(d, b) && LoadFilled(d, d', b)
    {
      AssignCounts(d, c, a, now, b);
    }
  }

  lemma FrameTransitive(d0: Db, d1: Db, d2: Db)
    requires Frame(d0, d1) && Frame(d1, d2)
    ensures Frame(d0, d2)
  {
    forall a: AgentId
      ensures SameSettings(d0, d2, a)
    {
      assert SameSettings(d0, d1, a) && SameSettings(d1, d2, a);
    }
  }

  lemma FrameEligible(r: Roster, d: Db, d': Db, a: AgentId, now: int)
    requires Frame(d, d')
    ensures Eligible(r, d', a) == Eligible(r, d, a)
    ensures MustRequeue(r, d', a, now) == MustRequeue(r, d, a, now)
  {
    assert SameSettings(d, d', a);
  }

  lemma FillsTransitive(r: Roster, d0: Db, d1: Db, d2: Db)
    requires Fills(r, d0, d1) && Fills(r, d1, d2)
    ensures Fills(r, d0, d2)
  {
    FrameTransitive(d0, d1, d2);
    forall a: AgentId
      ensures Drift(d2, a) == Drift(d0, a) && LoadFilled(d0, d2, a)
    {
      assert Drift(d1, a) == Drift(d0, a);
      assert SameSettings(d0, d1, a) && LoadFilled(d0, d1, a) && LoadFilled(d1, d2, a);
    }
    forall c | c in d0.conversations
      ensures ThreadFilled(r, d0, d2, c)
    {
      assert ThreadFilled(r, d0, d1, c) && ThreadFilled(r, d1, d2, c);
      var last := d2.conversations[c].assignedAgentId;
      if last.Some? { FrameEligible(r, d0, d1, last.value, 0); }
    }
  }

  lemma RouteFills(r: Roster, d: Db, c: ConversationId, a: AgentId, now: int)
    requires CanReassign(d, c, None) && Available(r, d, a)
    ensures Fills(r, d, RouteTo(r, d, c, a, now))
  {
    var d1 := EnsureProfiles(d, r.agents);
    EnsureFills(r, d, r.agents);
    AssignFills(r, d1, c, a, now);
    FillsTransitive(r, d, d1, RouteTo(r, d, c, a, now));
  }

  /** Skill-based routing: an agent without the skill is chosen only when no available agent has it. */
  lemma SkillFirst(r: Roster, d: Db, topic: Topic, a: AgentId, b: AgentId)
    requires Chosen(r, d, topic, a) && topic != General
    requires Available(r, d, b) && topic in ProfileOf(d, b).skills
    ensures topic in ProfileOf(d, a).skills
  {
    assert Ahead(r, d, topic, a, b);
  }

  // ----- load balance -----

  datatype Decision = Decision(c: ConversationId, a: AgentId, now: int)

  /** Each decision is the one `assignNow` makes for a waiting general-topic thread. */
  ghost predicate GeneralDecisions(r: Roster, d: Db, ds: seq<Decision>)
    decreases |ds|
  {
    ds == [] ||
    (&& CanReassign(d, ds[0].c, None)
     && Chosen(r, d, General, ds[0].a)
     && GeneralDecisions(r, RouteTo(r, d, ds[0].c, ds[0].a, ds[0].now), ds[1..]))
  }

  function Decided(r: Roster, d: Db, ds: seq<Decision>): Db
    decreases |ds|
  {
    if ds == [] then d else Decided(r, RouteTo(r, d, ds[0].c, ds[0].a, ds[0].now), ds[1..])
  }

  /** No eligible agent is more than one chat ahead of an eligible agent who still has room. */
  ghost predicate Balanced(r: Roster, d: Db) {
    forall i, j {:trigger Eligible(r, d, i), HasRoom(d, j)} ::
      Eligible(r, d, i) && Eligible(r, d, j) && HasRoom(d, j) ==> Active(d, i) <= Active(d, j) + 1
  }

  lemma RouteLoads(r: Roster, d: Db, c: ConversationId, a: AgentId, now: int, b: AgentId)
    requires CanReassign(d, c, None) && Available(r, d, a)
    ensures var d' := RouteTo(r, d, c, a, now);
            && Active(d', b) == Active(d, b) + (if b == a then 1 else 0)
            && Eligible(r, d', b) == Eligible(r, d, b)
            && ProfileOf(d', b).maxConcurrentChats == ProfileOf(d, b).maxConcurrentChats
  {
    EnsureFills(r, d, r.agents);
    AssignCounts(EnsureProfiles(d, r.agents), c, a, now, b);
  }

  lemma DecisionKeepsBalance(r: Roster, d: Db, c: ConversationId, a: AgentId, now: int)
    requires Balanced(r, d) && CanReassign(d, c, None) && Chosen(r, d, General, a)
    ensures Balanced(r, RouteTo(r, d, c, a, now))
  {
    var d' := RouteTo(r, d, c, a, now);
    forall i, j | Eligible(r, d', i) && Eligible(r, d', j) && HasRoom(d', j)
      ensures Active(d', i) <= Active(d', j) + 1
    {
      RouteLoads(r, d, c, a, now, i);
      RouteLoads(r, d, c, a, now, j);
      assert HasRoom(d, j) && Ahead(r, d, General, a, j);
    }
  }

  /** Least-loaded routing keeps loads within one of each other over any sequence of assignments. */
  lemma {:induction false} LoadStaysBalanced(r: Roster, d: Db, ds: seq<Decision>)
    requires Balanced(r, d) && GeneralDecisions(r, d, ds)
    ensures Balanced(r, Decided(r, d, ds))
    decreases |ds|
  {
    if ds != [] {
      DecisionKeepsBalance(r, d, ds[0].c, ds[0].a, ds[0].now);
      LoadStaysBalanced(r, RouteTo(r, d, ds[0].c, ds[0].a, ds[0].now), ds[1..]);
    }
  }

  function GivenTo(ds: seq<Decision>, b: AgentId): nat
    decreases |ds|
  {
    if ds == [] then 0 else (if ds[0].a == b then 1 else 0) + GivenTo(ds[1..], b)
  }

  lemma RouteThreads(r: Roster, d: Db, c: ConversationId, a: AgentId, now: int)
    requires CanReassign(d, c, None)
    ensures RouteTo(r, d, c, a, now).conversations
            == d.conversations[c := d.conversations[c].(assignedAgentId := Some(a))]
  {
  }

  /** Each of those assignments counts once for its agent, and its thread stays with them. */
  lemma {:induction false} DecisionsCounted(r: Roster, d: Db, ds: seq<Decision>, b: AgentId)
    requires GeneralDecisions(r, d, ds)
    ensures Active(Decided(r, d, ds), b) == Active(d, b) + GivenTo(ds, b)
    ensures forall c :: c in d.conversations && d.conversations[c].assignedAgentId.Some? ==>
              c in Decided(r, d, ds).conversations && Decided(r, d, ds).conversations[c] == d.conversations[c]
    ensures forall k :: 0 <= k < |ds| ==>
              && ds[k].c in Decided(r, d, ds).conversations
              && Decided(r, d, ds).conversations[ds[k].c].assignedAgentId == Some(ds[k].a)
    decreases |ds|
  {
    if ds != [] {
      var d1 := RouteTo(r, d, ds[0].c, ds[0].a, ds[0].now);
      RouteLoads(r, d, ds[0].c, ds[0].a, ds[0].now, b);
      RouteThreads(r, d, ds[0].c, ds[0].a, ds[0].now);
      DecisionsCounted(r, d1, ds[1..], b);
      forall k | 0 <= k < |ds|
        ensures ds[k].c in Decided(r, d, ds).conversations
        ensures Decided(r, d, ds).conversations[ds[k].c].assignedAgentId == Some(ds[k].a)
      {
        if k > 0 {
          assert ds[1..][k - 1] == ds[k];
        }
      }
    }
  }

  // ----- the queue -----

  predicate InQueue(d: Db, c: ConversationId) {
    CanReassign(d, c, None) && d.conversations[c].lastMessageAt.Some?
  }

  predicate NoneWaiting(d: Db) {
    forall c :: c in d.conversations ==> !InQueue(d, c)
  }

  const QUEUE_LIMIT := 50

  function WaitingSince(d: Db, c: ConversationId): int {
    if c in d.conversations && d.conversations[c].lastMessageAt.Some? then d.conversations[c].lastMessageAt.value else 0
  }

  /** A possible result of `listQueue`: the longest-waiting threads first, at most `limit`, ties in any order. */
  ghost predicate IsQueueListing(d: Db, limit: nat, q: seq<ConversationId>) {
    && Distinct(q) && |q| <= limit
    && (forall c :: c in q ==> InQueue(d, c))
    && (forall i, j :: 0 <= i < j < |q| ==> WaitingSince(d, q[i]) <= WaitingSince(d, q[j]))
    && (forall c :: InQueue(d, c) && c !in q ==>
          |q| == limit && forall k :: 0 <= k < |q| ==> WaitingSince(d, q[k]) <= WaitingSince(d, c))
  }

  /**
    * What a listing shows of the records: waiting threads without repetition, in the order of their
    * last messages, and a waiting thread is left out only of a full listing, behind everybody on it.
    */
  lemma ListingMeans(d: Db, limit: nat, q: seq<ConversationId>)
    ensures IsQueueListing(d, limit, q) <==>
              && |q| <= limit
              && (forall c :: c in q ==> c in d.conversations && InQueue(d, c))
              && (forall i, j :: 0 <= i < j < |q| ==>
                    && q[i] != q[j] && InQueue(d, q[i]) && InQueue(d, q[j])
                    && d.conversations[q[i]].lastMessageAt.value <= d.conversations[q[j]].lastMessageAt.value)
              && (forall c :: InQueue(d, c) && c !in q ==>
                    && |q| == limit
                    && forall x :: x in q ==>
                         && InQueue(d, x)
                         && d.conversations[x].lastMessageAt.value <= d.conversations[c].lastMessageAt.value)
  {
    assert forall k :: 0 <= k < |q| ==> q[k] in q;
  }

  lemma OldestExists(d: Db, s: set<ConversationId>)
    requires s != {}
    ensures exists c :: c in s && forall x :: x in s ==> WaitingSince(d, c) <= WaitingSince(d, x)
  {
    var before := (x: ConversationId, y: ConversationId) => WaitingSince(d, x) <= WaitingSince(d, y);
    FirstExists(s, before);
    var c :| IsFirst(s, before, c);
    assert forall x :: x in s ==> before(c, x);
  }

  // ----- requeueing -----

  /** What `requeueAgentChats` does to the threads it listed, before it drains the queue. */
  function RequeueAll(d: Db, a: AgentId, listed: seq<ConversationId>): Db
    decreases |listed|
  {
    if listed == [] then d
    else if CanReassign(d, listed[0], Some(a)) then
      RequeueAll(ReleaseSlot(Reassign(d, listed[0], Some(a), None), a), a, listed[1..])
    else
      RequeueAll(d, a, listed[1..])
  }

  function RequeuedCount(d: Db, a: AgentId, listed: seq<ConversationId>): nat
    decreases |listed|
  {
    if listed == [] then 0
    else if CanReassign(d, listed[0], Some(a)) then
      1 + RequeuedCount(ReleaseSlot(Reassign(d, listed[0], Some(a), None), a), a, listed[1..])
    else
      RequeuedCount(d, a, listed[1..])
  }

  /** Threads left alone, taken from agents for whom `gone` holds, or handed to eligible agents. */
  ghost predicate ThreadRerouted(r: Roster, d: Db, d': Db, gone: AgentId -> bool, c: ConversationId)
    requires c in d.conversations && c in d'.conversations
  {
    var old_, new_ := d.conversations[c].assignedAgentId, d'.conversations[c].assignedAgentId;
    || new_ == old_
    || (&& IsOpen(d, c)
        && (old_.Some? ==> gone(old_.value))
        && (new_.Some? ==> Eligible(r, d, new_.value)))
  }

  ghost predicate Reroutes(r: Roster, d: Db, d': Db, gone: AgentId -> bool) {
    Frame(d, d') && forall c :: c in d.conversations ==> ThreadRerouted(r, d, d', gone, c)
  }

  lemma FillsReroutes(r: Roster, d: Db, d': Db, gone: AgentId -> bool)
    requires Fills(r, d, d')
    ensures Reroutes(r, d, d', gone)
  {
    forall c | c in d.conversations
      ensures ThreadRerouted(r, d, d', gone, c)
    {
      assert ThreadFilled(r, d, d', c);
    }
  }

  lemma ReroutesTransitive(r: Roster, d0: Db, d1: Db, d2: Db, gone: AgentId -> bool)
    requires Reroutes(r, d0, d1, gone) && Reroutes(r, d1, d2, gone)
    ensures Reroutes(r, d0, d2, gone)
  {
    FrameTransitive(d0, d1, d2);
    forall c | c in d0.conversations
      ensures ThreadRerouted(r, d0, d2, gone, c)
    {
      assert ThreadRerouted(r, d0, d1, gone, c) && ThreadRerouted(r, d1, d2, gone, c);
      assert SameThread(d0.conversations[c], d1.conversations[c]);
      var last := d2.conversations[c].assignedAgentId;
      if last.Some? { FrameEligible(r, d0, d1, last.value, 0); }
    }
  }

  /** Agents who may not receive chats lose them for good: routing never hands any back. */
  lemma NothingHandedBack(r: Roster, d: Db, d': Db, gone: AgentId -> bool, a: AgentId)
    requires Reroutes(r, d, d', gone) && !Eligible(r, d, a) && OpenCount(d, a) == 0
    ensures OpenCount(d', a) == 0
  {
    CountZeroMeansNone(d.conversations, HeldBy(a));
    forall c | c in d'.conversations
      ensures !HeldBy(a)(d'.conversations[c])
    {
      assert ThreadRerouted(r, d, d', gone, c) && SameThread(d.conversations[c], d'.conversations[c]);
      assert !HeldBy(a)(d.conversations[c]);
    }
    CountZero(d'.conversations, HeldBy(a));
  }

  lemma RequeueOne(d: Db, a: AgentId, c: ConversationId, b: AgentId)
    requires CanReassign(d, c, Some(a))
    ensures var d' := ReleaseSlot(Reassign(d, c, Some(a), None), a);
            && SameSettings(d, d', b)
            && OpenCount(d', b) == OpenCount(d, b) - (if b == a then 1 else 0)
            && (b != a ==> Drift(d', b) == Drift(d, b))
            && (Drift(d, a) >= 0 ==> Drift(d', b) == Drift(d, b))
  {
    CountUpdate(d.conversations, c, d.conversations[c].(assignedAgentId := None), HeldBy(b));
    CountPositive(d.conversations, c, HeldBy(a));
  }

  /** Apart from counters, the only change is that threads of `a` lost their agent. */
  ghost predicate OnlyFrees(d: Db, d': Db, a: AgentId) {
    && Frame(d, d')
    && (forall c :: c in d.conversations ==>
          || d'.conversations[c].assignedAgentId == d.conversations[c].assignedAgentId
          || (HeldBy(a)(d.conversations[c]) && d'.conversations[c].assignedAgentId.None?))
  }

  lemma OnlyFreesTransitive(d0: Db, d1: Db, d2: Db, a: AgentId)
    requires OnlyFrees(d0, d1, a) && OnlyFrees(d1, d2, a)
    ensures OnlyFrees(d0, d2, a)
  {
    FrameTransitive(d0, d1, d2);
    forall c | c in d0.conversations
      ensures || d2.conversations[c].assignedAgentId == d0.conversations[c].assignedAgentId
              || (HeldBy(a)(d0.conversations[c]) && d2.conversations[c].assignedAgentId.None?)
    {
      assert SameThread(d0.conversations[c], d1.conversations[c]);
    }
  }

  /** Requeueing frees threads of the agent and no others, and every listed one. */
  lemma {:induction false} RequeueFrees(d: Db, a: AgentId, listed: seq<ConversationId>)
    ensures OnlyFrees(d, RequeueAll(d, a, listed), a)
    ensures forall c :: c in d.conversations && c in listed ==> !HeldBy(a)(RequeueAll(d, a, listed).conversations[c])
    decreases |listed|
  {
    if listed != [] {
      var d' := RequeueAll(d, a, listed);
      var d1 := if CanReassign(d, listed[0], Some(a)) then ReleaseSlot(Reassign(d, listed[0], Some(a), None), a) else d;
      RequeueFrees(d1, a, listed[1..]);
      assert OnlyFrees(d, d1, a);
      OnlyFreesTransitive(d, d1, d', a);
      forall c | c in d.conversations && c in listed
        ensures !HeldBy(a)(d'.conversations[c])
      {
        if c !in listed[1..] {
          assert c == listed[0] && !HeldBy(a)(d1.conversations[c]);
          assert SameThread(d1.conversations[c], d'.conversations[c]);
        }
      }
    }
  }

  /**
   If the agent's counter is not below the real count to begin with, requeueing keeps every
   counter's distance from the real count; other agents' counters in any case.
   */
  lemma {:induction false} RequeueKeepsDrift(d: Db, a: AgentId, listed: seq<ConversationId>, b: AgentId)
    requires b != a || Drift(d, a) >= 0
    ensures Drift(RequeueAll(d, a, listed), b) == Drift(d, b)
    decreases |listed|
  {
    if listed == [] {
    } else if CanReassign(d, listed[0], Some(a)) {
      RequeueOne(d, a, listed[0], b);
      RequeueKeepsDrift(ReleaseSlot(Reassign(d, listed[0], Some(a), None), a), a, listed[1..], b);
    } else {
      RequeueKeepsDrift(d, a, listed[1..], b);
    }
  }

  lemma RequeuedCountAll(d: Db, a: AgentId, listed: seq<ConversationId>)
    requires Distinct(listed) && forall c :: c in listed ==> CanReassign(d, c, Some(a))
    ensures RequeuedCount(d, a, listed) == |listed|
    decreases |listed|
  {
    if listed != [] {
      var d1 := ReleaseSlot(Reassign(d, listed[0], Some(a), None), a);
      forall c | c in listed[1..]
        ensures CanReassign(d1, c, Some(a))
      {
        var k :| 0 <= k < |listed| - 1 && listed[1..][k] == c;
        assert listed[k + 1] == c && c in listed;
      }
      RequeuedCountAll(d1, a, listed[1..]);
    }
  }

  lemma FreesReroutes(r: Roster, d: Db, d': Db, a: AgentId, gone: AgentId -> bool)
    requires OnlyFrees(d, d', a) && gone(a)
    ensures Reroutes(r, d, d', gone)
  {
  }

  // ----- threads held by users who are no longer agents -----

  /** The orphan loop of a rebalance: threads go back to the queue and no slot is released. */
  function FreeOrphans(d: Db, listed: seq<(ConversationId, AgentId)>): Db
    decreases |listed|
  {
    if listed == [] then d else FreeOrphans(Reassign(d, listed[0].0, Some(listed[0].1), None), listed[1..])
  }

  predicate NotAgent(r: Roster, a: AgentId) {
    a !in r.agents
  }

  ghost function Outsiders(r: Roster): AgentId -> bool {
    (a: AgentId) => NotAgent(r, a)
  }

  lemma {:induction false} OrphansEffect(r: Roster, d: Db, listed: seq<(ConversationId, AgentId)>)
    requires forall p :: p in listed ==> NotAgent(r, p.1)
    ensures Reroutes(r, d, FreeOrphans(d, listed), Outsiders(r))
    ensures forall c :: c in d.conversations ==>
              FreeOrphans(d, listed).conversations[c].assignedAgentId in {d.conversations[c].assignedAgentId, None}
    ensures forall a :: a in r.agents ==> Drift(FreeOrphans(d, listed), a) == Drift(d, a)
    ensures forall p :: p in listed && p.0 in d.conversations ==>
            !HeldBy(p.1)(FreeOrphans(d, listed).conversations[p.0])
    decreases |listed|
  {
    if listed != [] {
      var c, holder := listed[0].0, listed[0].1;
      assert listed[0] in listed;
      var d1 := Reassign(d, c, Some(holder), None);
      var d' := FreeOrphans(d, listed);
      OrphansEffect(r, d1, listed[1..]);
      assert Reroutes(r, d, d1, Outsiders(r));
      ReroutesTransitive(r, d, d1, d', Outsiders(r));
      forall a | a in r.agents
        ensures Drift(d', a) == Drift(d, a)
      {
        if CanReassign(d, c, Some(holder)) {
          CountUpdate(d.conversations, c, d.conversations[c].(assignedAgentId := None), HeldBy(a));
        }
      }
      forall p | p in listed && p.0 in d.conversations
        ensures !HeldBy(p.1)(d'.conversations[p.0])
      {
        if p !in listed[1..] {
          assert p == listed[0] && !HeldBy(holder)(d1.conversations[c]);
          assert SameThread(d1.conversations[c], d'.conversations[c]);
        }
      }
    }
  }

  // ----- recounting -----

  function SyncedProfiles(profiles: map<AgentId, Profile>, counts: map<AgentId, int>): map<AgentId, Profile> {
    map a | a in profiles :: if a in counts then profiles[a].(activeChats := counts[a]) else profiles[a]
  }

  /** `syncActiveChats` with the real counts, after `ensureProfiles`. */
  function Recounted(r: Roster, d: Db, counts: map<AgentId, int>): Db {
    d.(profiles := SyncedProfiles(WithProfiles(d.profiles, r.agents), counts))
  }

  lemma RecountRepairs(r: Roster, d: Db, counts: map<AgentId, int>)
    requires forall a :: a in r.agents ==> a in counts && counts[a] == OpenCount(Db(map[], d.conversations), a)
    ensures Frame(d, Recounted(r, d, counts))
    ensures CountersExact(r, Recounted(r, d, counts))
  {
    var d' := Recounted(r, d, counts);
    forall a: AgentId
      ensures SameSettings(d, d', a)
      ensures a in r.agents ==> Active(d', a) == OpenCount(d', a)
    {
      assert d'.conversations == Db(map[], d.conversations).conversations;
    }
  }

  // ----- what a rebalance establishes -----

  /** The agents whose chats a rebalance puts back in the queue, counting users who are no longer agents. */
  ghost function Gone(r: Roster, d: Db, now: int): AgentId -> bool {
    (a: AgentId) => NotAgent(r, a) || MustRequeue(r, d, a, now)
  }

  lemma ReroutesWeaken(r: Roster, d: Db, d': Db, gone: AgentId -> bool, gone': AgentId -> bool)
    requires Reroutes(r, d, d', gone) && forall a: AgentId :: gone(a) ==> gone'(a)
    ensures Reroutes(r, d, d', gone')
  {
    forall c | c in d.conversations
      ensures ThreadRerouted(r, d, d', gone', c)
    {
      assert ThreadRerouted(r, d, d', gone, c);
    }
  }

  /** Every current agent's counter is their real number of open chats. */
  ghost predicate CountersExact(r: Roster, d: Db) {
    forall a :: a in r.agents ==> Drift(d, a) == 0
  }

  /** Every open chat is with a current agent who is neither offline by choice nor gone too long. */
  ghost predicate WellPlaced(r: Roster, d: Db, now: int) {
    forall c :: IsOpen(d, c) && d.conversations[c].assignedAgentId.Some? ==>
      var a := d.conversations[c].assignedAgentId.value;
      a in r.agents && !MustRequeue(r, d, a, now)
  }

  lemma ClearedIsWellPlaced(r: Roster, d: Db, now: int)
    requires forall a: AgentId :: NotAgent(r, a) || MustRequeue(r, d, a, now) ==> OpenCount(d, a) == 0
    ensures WellPlaced(r, d, now)
  {
    forall c | IsOpen(d, c) && d.conversations[c].assignedAgentId.Some?
      ensures var a := d.conversations[c].assignedAgentId.value; a in r.agents && !MustRequeue(r, d, a, now)
    {
      var a := d.conversations[c].assignedAgentId.value;
      CountPositive(d.conversations, c, HeldBy(a));
      assert !NotAgent(r, a);
    }
  }
}
