/**
 Drains that meet. A server that is draining drops further requests to drain and goes on with the
 listing it has, while threads and free agents come and go. Each other call below runs on its own;
 the question is whether a thread can be left waiting although an agent is available and nobody
 is about to look.
 */
module DrainRuns {
  import opened Ids
  import opened Options
  import opened Desk
  import opened Routing
  import AssignmentRuns
  import AssignmentCalls

  /**
   `drains` holds what each draining server has left of its listing, `requests` how many drains have
   been asked for and not begun, `attempts` the threads about to be auto-assigned on their own.
   */
  datatype State = State(
    roster: Roster,
    db: Db,
    drains: map<ServerId, seq<ConversationId>>,
    requests: nat,
    attempts: set<ConversationId>)

  datatype Step =
    | Request(server: ServerId, listing: seq<ConversationId>) // a drain asked for begins, or is dropped
    | DrainNext(server: ServerId, now: int)
    | Attempt(c: ConversationId, now: int)
    | Message(c: ConversationId, at: int)
    | Connection(a: AgentId, presence: Presence)
    | Configure(a: AgentId, availability: Availability, skills: set<Topic>, maxConcurrentChats: int)
    | Close(c: ConversationId)
    | Claim(c: ConversationId, a: AgentId, now: int)
    | TransferTo(c: ConversationId, b: AgentId, now: int)
    | TransferToQueue(c: ConversationId)
    | Requeue(a: AgentId, listed: seq<ConversationId>)

  // ----- one decision -----

  lemma ChosenExists(r: Roster, d: Db, topic: Topic)
    requires !NoneAvailable(r, d)
    ensures exists a :: Chosen(r, d, topic, a)
  {
    var available := set a | a in r.agents && Available(r, d, a);
    var some :| some in r.agents && Available(r, d, some);
    assert some in available;
    BestExists(r, d, topic, available);
    var a :| a in available && forall b :: b in available ==> Ahead(r, d, topic, a, b);
    assert Chosen(r, d, topic, a);
  }

  /** What one uninterrupted `autoAssign` makes of the records. */
  ghost function Decide(r: Roster, d: Db, c: ConversationId, now: int): Db {
    if !CanReassign(d, c, None) then d
    else if NoneAvailable(r, d) then EnsureProfiles(d, r.agents)
    else
      ChosenExists(r, d, d.conversations[c].topic);
      var a :| Chosen(r, d, d.conversations[c].topic, a);
      RouteTo(r, d, c, a, now)
  }

  /** Between these records nobody became available and no thread began to wait. */
  ghost predicate NothingNew(r: Roster, d: Db, d': Db) {
    && (forall a :: a in r.agents && Available(r, d', a) ==> Available(r, d, a))
    && (forall c :: InQueue(d', c) ==> InQueue(d, c))
  }

  lemma FillsNothingNew(r: Roster, d: Db, d': Db)
    requires Fills(r, d, d')
    ensures NothingNew(r, d, d')
  {
    forall a | a in r.agents && Available(r, d', a)
      ensures Available(r, d, a)
    {
      assert SameSettings(d, d', a) && LoadFilled(d, d', a);
    }
    forall c | InQueue(d', c)
      ensures InQueue(d, c)
    {
      assert ThreadFilled(r, d, d', c) && SameThread(d.conversations[c], d'.conversations[c]);
    }
  }

  lemma DecideSettles(r: Roster, d: Db, c: ConversationId, now: int)
    ensures NothingNew(r, d, Decide(r, d, c, now))
    ensures !NoneAvailable(r, d) ==> !InQueue(Decide(r, d, c, now), c)
  {
    if CanReassign(d, c, None) {
      if NoneAvailable(r, d) {
        EnsureFills(r, d, r.agents);
        FillsNothingNew(r, d, EnsureProfiles(d, r.agents));
      } else {
        ChosenExists(r, d, d.conversations[c].topic);
        var a :| Chosen(r, d, d.conversations[c].topic, a) && Decide(r, d, c, now) == RouteTo(r, d, c, a, now);
        RouteFills(r, d, c, a, now);
        FillsNothingNew(r, d, RouteTo(r, d, c, a, now));
      }
    }
  }

  // ----- steps -----

  predicate Held(d: Db, c: ConversationId) {
    IsOpen(d, c) && d.conversations[c].assignedAgentId.Some?
  }

  function ReleaseHolder(d: Db, holder: Option<AgentId>): Db {
    if holder.Some? then ReleaseSlot(d, holder.value) else d
  }

  /** A forced reservation and the move it is for, as `claim` and `transfer` make them. */
  function GiveTo(d: Db, c: ConversationId, b: AgentId, now: int): Db
    requires IsOpen(d, c)
  {
    var holder := d.conversations[c].assignedAgentId;
    ReleaseHolder(Reassign(TakeSlot(EnsureProfile(d, b), b, None, now), c, holder, Some(b)), holder)
  }

  function Written(d: Db, c: ConversationId, at: int): Db
    requires c in d.conversations
  {
    ReopenIfClosed(d.(conversations := d.conversations[c := d.conversations[c].(lastMessageAt := Some(at))]), c)
  }

  /** A status that changed to online asks for a drain. */
  function Notified(s: State, a: AgentId): State {
    if Eligible(s.roster, s.db, a) then s.(requests := s.requests + 1) else s
  }

  ghost function Next(s: State, step: Step): State {
    match step
    case Request(server, listing) =>
      if s.requests == 0 || !IsQueueListing(s.db, QUEUE_LIMIT, listing) then s
      else if server in s.drains then s.(requests := s.requests - 1)
      else s.(requests := s.requests - 1, drains := s.drains[server := listing])
    case DrainNext(server, now) =>
      if server !in s.drains then s
      else if s.drains[server] == [] then s.(drains := s.drains - {server})
      else
        var c := s.drains[server][0];
        var noAgent := CanReassign(s.db, c, None) && NoneAvailable(s.roster, s.db);
        s.(db := Decide(s.roster, s.db, c, now),
           drains := if noAgent then s.drains - {server} else s.drains[server := s.drains[server][1..]])
    case Attempt(c, now) =>
      if c !in s.attempts then s
      else s.(db := Decide(s.roster, s.db, c, now), attempts := s.attempts - {c})
    case Message(c, at) =>
      if c !in s.db.conversations then s else s.(db := Written(s.db, c, at), attempts := s.attempts + {c})
    case Connection(a, p) => Notified(s.(roster := s.roster.(presence := s.roster.presence[a := p])), a)
    case Configure(a, availability, skills, most) =>
      var p := ProfileOf(s.db, a).(availability := availability, skills := skills, maxConcurrentChats := most);
      Notified(s.(db := s.db.(profiles := s.db.profiles[a := p])), a)
    case Close(c) =>
      if !IsOpen(s.db, c) then s
      else
        var holder := s.db.conversations[c].assignedAgentId;
        s.(db := ReleaseHolder(CloseConversation(s.db, c), holder), requests := s.requests + 1)
    case Claim(c, a, now) => if CanReassign(s.db, c, None) then s.(db := GiveTo(s.db, c, a, now)) else s
    case TransferTo(c, b, now) => if Moves(s, c, b) then s.(db := GiveTo(s.db, c, b, now)) else s
    case TransferToQueue(c) =>
      if !Held(s.db, c) then s
      else
        var holder := s.db.conversations[c].assignedAgentId;
        s.(db := ReleaseHolder(Reassign(s.db, c, holder, None), holder), attempts := s.attempts + {c})
    case Requeue(a, listed) =>
      s.(db := RequeueAll(s.db, a, listed),
         requests := if RequeuedCount(s.db, a, listed) > 0 then s.requests + 1 else s.requests)
  }

  predicate Moves(s: State, c: ConversationId, b: AgentId) {
    IsOpen(s.db, c) && s.db.conversations[c].assignedAgentId != Some(b) && b in s.roster.agents
  }

  lemma {:induction false} RequeuedMeans(d: Db, a: AgentId, listed: seq<ConversationId>)
    ensures RequeuedCount(d, a, listed) > 0 <==> exists k :: 0 <= k < |listed| && CanReassign(d, listed[k], Some(a))
    decreases |listed|
  {
    if listed != [] && !CanReassign(d, listed[0], Some(a)) {
      RequeuedMeans(d, a, listed[1..]);
      if k :| 0 <= k < |listed| && CanReassign(d, listed[k], Some(a)) {
        assert listed[1..][k - 1] == listed[k];
      }
      if k :| 0 <= k < |listed| - 1 && CanReassign(d, listed[1..][k], Some(a)) {
        assert listed[k + 1] == listed[1..][k];
      }
    }
  }

  /** The calls that ask for a drain: a close, a status that became online, a requeue that freed a thread. */
  ghost predicate Asks(s: State, step: Step) {
    match step
    case Close(c) => c in s.db.conversations && s.db.conversations[c].status == Open
    case Connection(a, p) => p.online && a in s.roster.agents && ProfileOf(s.db, a).availability == Online
    case Configure(a, availability, _, _) => availability == Online && Connected(s.roster, a) && a in s.roster.agents
    case Requeue(a, listed) => exists k :: 0 <= k < |listed| && CanReassign(s.db, listed[k], Some(a))
    case _ => false
  }

  /** Each asks for one drain, and one drain asked for is begun or dropped at a time. */
  lemma RequestsMeans(s: State, step: Step)
    ensures Next(s, step).requests
            == s.requests
               + (if Asks(s, step) then 1 else 0)
               - (if step.Request? && s.requests > 0 && IsQueueListing(s.db, 50, step.listing) then 1 else 0)
  {
    if step.Requeue? {
      RequeuedMeans(s.db, step.a, step.listed);
    }
  }

  /** A drain goes on with the rest of its listing unless the thread at its front waits and nobody is available. */
  lemma DrainsMeans(s: State, server: ServerId, now: int)
    requires server in s.drains
    ensures var s' := Next(s, DrainNext(server, now));
            var listing := s.drains[server];
            && (server in s'.drains <==>
                  listing != [] && !(CanReassign(s.db, listing[0], None) && NoneAvailable(s.roster, s.db)))
            && (server in s'.drains ==> s'.drains[server] == listing[1..])
            && (forall other: ServerId :: other != server ==>
                  && (other in s'.drains <==> other in s.drains)
                  && (other in s.drains ==> s'.drains[other] == s.drains[other]))
  {
  }

  // ----- each call is a whole run -----

  function Uninterrupted(d: Db, r: AssignmentRuns.Run, i: AssignmentRuns.Inputs, n: nat): Db {
    AssignmentCalls.Solo(d, r, i, n).0
  }

  /** A claim does to the records what its operations do one after the other. */
  lemma WholeClaim(s: State, c: ConversationId, a: AgentId, i: AssignmentRuns.Inputs)
    ensures Next(s, Claim(c, a, i.now)).db == Uninterrupted(s.db, AssignmentRuns.ClaimStart(c, a, true), i, 4)
  {
    AssignmentCalls.ClaimAlone(s.db, c, a, true, i);
  }

  /** So does a close, */
  lemma WholeClose(s: State, c: ConversationId, admin: AgentId, i: AssignmentRuns.Inputs)
    ensures Next(s, Close(c)).db == Uninterrupted(s.db, AssignmentRuns.CloseStart(c, admin, true), i, 3)
  {
    AssignmentCalls.CloseAlone(s.db, c, admin, true, i);
  }

  lemma GivenProfiles(d: Db, c: ConversationId, b: AgentId, now: int)
    requires IsOpen(d, c)
    ensures var holder := d.conversations[c].assignedAgentId;
            GiveTo(d, c, b, now).profiles == AssignmentCalls.OneLess(AssignmentCalls.OneMore(d, b, now), holder)
  {
    var d1 := TakeSlot(EnsureProfile(d, b), b, None, now);
    assert d1.profiles == AssignmentCalls.OneMore(d, b, now);
  }

  lemma NoTransfer(s: State, c: ConversationId, b: AgentId, i: AssignmentRuns.Inputs)
    requires i.isAgent == (b in s.roster.agents) && !Moves(s, c, b)
    ensures Uninterrupted(s.db, AssignmentRuns.TransferStart(c, Some(b)), i, 5) == s.db
  {
    AssignmentCalls.SoloStep(s.db, AssignmentRuns.TransferStart(c, Some(b)), i, s.db, AssignmentRuns.Done, 4);
    AssignmentCalls.DoneStays(s.db, i, 4);
  }

  /** a transfer to an agent, */
  lemma WholeTransfer(s: State, c: ConversationId, b: AgentId, i: AssignmentRuns.Inputs)
    requires i.isAgent == (b in s.roster.agents)
    ensures Next(s, TransferTo(c, b, i.now)).db
            == Uninterrupted(s.db, AssignmentRuns.TransferStart(c, Some(b)), i, 5)
  {
    if Moves(s, c, b) {
      GivenProfiles(s.db, c, b, i.now);
      AssignmentCalls.TransferToAgentAlone(s.db, c, s.db.conversations[c].assignedAgentId, b, i);
    } else {
      NoTransfer(s, c, b, i);
    }
  }

  /** a transfer to the queue, */
  lemma WholeTransferToQueue(s: State, c: ConversationId, i: AssignmentRuns.Inputs)
    ensures Next(s, TransferToQueue(c)).db == Uninterrupted(s.db, AssignmentRuns.TransferStart(c, None), i, 3)
  {
    if Held(s.db, c) {
      AssignmentCalls.TransferToQueueAlone(s.db, c, s.db.conversations[c].assignedAgentId.value, i);
    } else {
      AssignmentCalls.SoloStep(s.db, AssignmentRuns.TransferStart(c, None), i, s.db, AssignmentRuns.Done, 2);
      AssignmentCalls.DoneStays(s.db, i, 2);
    }
  }

  /** an `autoAssign` once the profiles are made sure of, if its candidates begin with the best available agent, */
  lemma WholeAttempt(r: Roster, d: Db, c: ConversationId, i: AssignmentRuns.Inputs)
    requires i.candidates != [] && CanReassign(d, c, None)
    requires Chosen(r, d, d.conversations[c].topic, i.candidates[0])
    ensures Decide(r, d, c, i.now)
            == Uninterrupted(EnsureProfiles(d, r.agents), AssignmentRuns.AutoStart(c), i, 5)
  {
    var a := i.candidates[0];
    forall b | Chosen(r, d, d.conversations[c].topic, b)
      ensures b == a
    {
      ChosenIsUnique(r, d, d.conversations[c].topic, a, b);
    }
    EnsureFills(r, d, r.agents);
    AssignmentCalls.AutoAlone(EnsureProfiles(d, r.agents), c, 0, i);
  }

  /** and a requeue. */
  lemma WholeRequeue(s: State, a: AgentId, i: AssignmentRuns.Inputs)
    ensures Next(s, Requeue(a, i.listed)).db
            == Uninterrupted(s.db, AssignmentRuns.RequeueStart(a), i, 2 * |i.listed| + 2)
  {
    AssignmentCalls.RequeueStartAlone(s.db, a, i);
  }

  /** Settings and messages are written as in the runs there. */
  lemma SameWrites(s: State, a: AgentId, availability: Availability, skills: set<Topic>, most: int,
      c: ConversationId, at: int)
    ensures var s0 := AssignmentRuns.State(s.db, map[]);
            && Next(s, Configure(a, availability, skills, most)).db
                == AssignmentRuns.Next(s0, AssignmentRuns.Configure(a, availability, skills, most)).db
            && (c in s.db.conversations ==>
                  var s1 := AssignmentRuns.Next(s0,
                      AssignmentRuns.Touch(c, s.db.conversations[c].topic, Some(at)));
                  Next(s, Message(c, at)).db == AssignmentRuns.Next(s1, AssignmentRuns.Reopen(c)).db)
  {
  }

  // ----- threads in hand -----

  /** Somebody is about to look at this thread. */
  ghost predicate InHand(s: State, c: ConversationId) {
    c in s.attempts || exists server :: server in s.drains && c in s.drains[server]
  }

  ghost predicate LeftOut(s: State, c: ConversationId) {
    InQueue(s.db, c) && !InHand(s, c)
  }

  /** Nobody is available, a drain has yet to begin, or every waiting thread is in hand. */
  ghost predicate Covered(s: State) {
    NoneAvailable(s.roster, s.db) || s.requests > 0 || forall c :: !LeftOut(s, c)
  }

  /** The thread's holder is eligible, full, and has room again without it. */
  predicate FreesRoom(s: State, c: ConversationId)
    requires Held(s.db, c)
  {
    var a := s.db.conversations[c].assignedAgentId.value;
    && Eligible(s.roster, s.db, a)
    && 0 < Active(s.db, a) && Active(s.db, a) - 1 < ProfileOf(s.db, a).maxConcurrentChats
  }

  /**
   The steps that let a waiting thread go out of sight: the last drain asked for is dropped, or its
   listing is cut off before the thread; or a transfer frees an agent and nobody asks for a drain.
   */
  ghost predicate Loses(s: State, step: Step) {
    match step
    case Request(server, listing) =>
      && s.requests == 1 && IsQueueListing(s.db, QUEUE_LIMIT, listing) && !NoneAvailable(s.roster, s.db)
      && exists c :: LeftOut(s, c) && (server in s.drains || c !in listing)
    case TransferTo(c, b, _) =>
      s.requests == 0 && Moves(s, c, b) && Held(s.db, c) && FreesRoom(s, c) && exists x :: LeftOut(s, x)
    case TransferToQueue(c) =>
      s.requests == 0 && Held(s.db, c) && FreesRoom(s, c) && exists x :: LeftOut(s, x)
    case _ => false
  }

  /** Nothing new to look at: nobody became available and no further thread is left out. */
  lemma StaysCovered(s: State, s': State)
    requires Covered(s) && s'.requests >= s.requests
    requires NoneAvailable(s.roster, s.db) ==> NoneAvailable(s'.roster, s'.db)
    requires forall c :: LeftOut(s', c) ==> LeftOut(s, c)
    ensures Covered(s')
  {
  }

  lemma DecisionCovered(s: State, c: ConversationId, now: int, s': State)
    requires Covered(s) && s' == s.(db := Decide(s.roster, s.db, c, now), drains := s'.drains, attempts := s'.attempts)
    requires forall x: ConversationId :: x != c && InHand(s, x) ==> InHand(s', x)
    ensures Covered(s')
  {
    DecideSettles(s.roster, s.db, c, now);
    if !NoneAvailable(s.roster, s.db) {
      StaysCovered(s, s');
    }
  }

  lemma DrainNextCovered(s: State, server: ServerId, now: int)
    requires Covered(s)
    ensures Covered(Next(s, DrainNext(server, now)))
  {
    var s' := Next(s, DrainNext(server, now));
    if server in s.drains {
      var listed := s.drains[server];
      if listed == [] {
        forall x | InHand(s, x)
          ensures InHand(s', x)
        {
          if x !in s.attempts {
            var other :| other in s.drains && x in s.drains[other];
            assert other in s'.drains && x in s'.drains[other];
          }
        }
        StaysCovered(s, s');
      } else if CanReassign(s.db, listed[0], None) && NoneAvailable(s.roster, s.db) {
        DecideSettles(s.roster, s.db, listed[0], now);
      } else {
        forall x: ConversationId | x != listed[0] && InHand(s, x)
          ensures InHand(s', x)
        {
          if x !in s.attempts {
            var other :| other in s.drains && x in s.drains[other];
            assert other in s'.drains && x in s'.drains[other];
          }
        }
        DecisionCovered(s, listed[0], now, s');
      }
    }
  }

  lemma AttemptCovered(s: State, c: ConversationId, now: int)
    requires Covered(s)
    ensures Covered(Next(s, Attempt(c, now)))
  {
    var s' := Next(s, Attempt(c, now));
    if c in s.attempts {
      DecisionCovered(s, c, now, s');
    }
  }

  lemma MessageCovered(s: State, c: ConversationId, at: int)
    requires Covered(s)
    ensures Covered(Next(s, Message(c, at)))
  {
    var s' := Next(s, Message(c, at));
    if c in s.db.conversations {
      assert s'.db.profiles == s.db.profiles;
      forall x | LeftOut(s', x)
        ensures LeftOut(s, x)
      {
        assert x != c && s'.db.conversations[x] == s.db.conversations[x];
      }
      StaysCovered(s, s');
    }
  }

  /** A change of one agent that leaves them ineligible makes nobody available. */
  lemma StatusCovered(s: State, step: Step)
    requires Covered(s) && (step.Connection? || step.Configure?)
    ensures Covered(Next(s, step))
  {
    var s' := Next(s, step);
    if s'.requests == s.requests {
      forall b | b in s'.roster.agents && Available(s'.roster, s'.db, b)
        ensures Available(s.roster, s.db, b)
      {
        assert b != step.a;
      }
      StaysCovered(s, s');
    }
  }

  lemma {:induction false} NothingRequeued(d: Db, a: AgentId, listed: seq<ConversationId>)
    requires RequeuedCount(d, a, listed) == 0
    ensures RequeueAll(d, a, listed) == d
    decreases |listed|
  {
    if listed != [] {
      NothingRequeued(d, a, listed[1..]);
    }
  }

  /** Giving a thread away makes nobody available but its former holder, and no thread wait. */
  lemma GiveToEffect(r: Roster, d: Db, c: ConversationId, b: AgentId, now: int)
    requires IsOpen(d, c) && d.conversations[c].assignedAgentId != Some(b)
    ensures var d' := GiveTo(d, c, b, now);
            && (forall x :: InQueue(d', x) <==> InQueue(d, x) && x != c)
            && (forall a: AgentId :: Some(a) != d.conversations[c].assignedAgentId && Available(r, d', a) ==>
                Available(r, d, a))
            && (forall a: AgentId :: Some(a) == d.conversations[c].assignedAgentId ==>
                ProfileOf(d', a) == ProfileOf(ReleaseSlot(d, a), a))
  {
  }

  lemma ClaimCovered(s: State, c: ConversationId, a: AgentId, now: int)
    requires Covered(s)
    ensures Covered(Next(s, Claim(c, a, now)))
  {
    if CanReassign(s.db, c, None) {
      GiveToEffect(s.roster, s.db, c, a, now);
      StaysCovered(s, Next(s, Claim(c, a, now)));
    }
  }

  lemma ToQueueEffect(r: Roster, d: Db, c: ConversationId)
    requires Held(d, c)
    ensures var holder := d.conversations[c].assignedAgentId;
            var d' := ReleaseHolder(Reassign(d, c, holder, None), holder);
            && (forall x :: x != c ==> (InQueue(d', x) <==> InQueue(d, x)))
            && (forall a: AgentId :: Some(a) != holder ==> ProfileOf(d', a) == ProfileOf(d, a))
            && ProfileOf(d', holder.value) == ProfileOf(ReleaseSlot(d, holder.value), holder.value)
  {
  }

  /** A freed holder is available exactly if they are eligible and one slot less leaves them room. */
  lemma FreedHolder(s: State, s': State, c: ConversationId)
    requires Held(s.db, c) && s'.roster == s.roster && NoneAvailable(s.roster, s.db)
    requires var a := s.db.conversations[c].assignedAgentId.value;
             ProfileOf(s'.db, a) == ProfileOf(ReleaseSlot(s.db, a), a)
    ensures Available(s'.roster, s'.db, s.db.conversations[c].assignedAgentId.value) <==> FreesRoom(s, c)
  {
    var a := s.db.conversations[c].assignedAgentId.value;
    if Active(s.db, a) <= 0 {
      assert ProfileOf(s'.db, a) == ProfileOf(s.db, a);
      assert a in s.roster.agents ==> !Available(s.roster, s.db, a);
    }
  }

  /**
   After a transfer away from its holder, coverage turns on what it does to that agent and to the
   threads left out.
   */
  lemma FreedCovered(s: State, s': State, c: ConversationId)
    requires Covered(s) && Held(s.db, c) && s'.roster == s.roster && s'.requests == s.requests
    requires forall x :: LeftOut(s', x) <==> LeftOut(s, x)
    requires var a := s.db.conversations[c].assignedAgentId.value;
             && ProfileOf(s'.db, a) == ProfileOf(ReleaseSlot(s.db, a), a)
             && forall b: AgentId :: b != a && Available(s.roster, s'.db, b) ==> Available(s.roster, s.db, b)
    ensures Covered(s') <==> !(s.requests == 0 && FreesRoom(s, c) && exists x :: LeftOut(s, x))
  {
    var a := s.db.conversations[c].assignedAgentId.value;
    if NoneAvailable(s.roster, s.db) {
      FreedHolder(s, s', c);
      assert NoneAvailable(s'.roster, s'.db) <==> !FreesRoom(s, c) by {
        if FreesRoom(s, c) {
          assert a in s'.roster.agents && Available(s'.roster, s'.db, a);
        }
      }
    }
  }

  lemma TransferToCovered(s: State, c: ConversationId, b: AgentId, now: int)
    requires Covered(s)
    ensures Covered(Next(s, TransferTo(c, b, now))) <==> !Loses(s, TransferTo(c, b, now))
  {
    var s' := Next(s, TransferTo(c, b, now));
    if Moves(s, c, b) {
      GiveToEffect(s.roster, s.db, c, b, now);
      if Held(s.db, c) {
        forall x: ConversationId
          ensures LeftOut(s', x) <==> LeftOut(s, x)
        {
        }
        FreedCovered(s, s', c);
      } else {
        StaysCovered(s, s');
      }
    }
  }

  lemma TransferToQueueCovered(s: State, c: ConversationId)
    requires Covered(s)
    ensures Covered(Next(s, TransferToQueue(c))) <==> !Loses(s, TransferToQueue(c))
  {
    var s' := Next(s, TransferToQueue(c));
    if Held(s.db, c) {
      ToQueueEffect(s.roster, s.db, c);
      forall x: ConversationId
        ensures LeftOut(s', x) <==> LeftOut(s, x)
      {
      }
      FreedCovered(s, s', c);
    }
  }

  lemma RequestCovered(s: State, server: ServerId, listing: seq<ConversationId>)
    requires Covered(s)
    ensures Covered(Next(s, Request(server, listing))) <==> !Loses(s, Request(server, listing))
  {
    var s' := Next(s, Request(server, listing));
    if s.requests > 0 && IsQueueListing(s.db, QUEUE_LIMIT, listing) {
      forall x: ConversationId
        ensures LeftOut(s', x) <==> LeftOut(s, x) && (server in s.drains || x !in listing)
      {
        if server !in s.drains {
          BegunInHand(s, server, listing, x);
        }
      }
    }
  }

  lemma BegunInHand(s: State, server: ServerId, listing: seq<ConversationId>, x: ConversationId)
    requires server !in s.drains
    ensures var s' := s.(requests := 0, drains := s.drains[server := listing]);
            InHand(s', x) <==> InHand(s, x) || x in listing
  {
    var s' := s.(requests := 0, drains := s.drains[server := listing]);
    if x in listing { assert server in s'.drains && x in s'.drains[server]; }
    if other :| other in s.drains && x in s.drains[other] {
      assert other in s'.drains && x in s'.drains[other];
    }
  }

  /** A step keeps every waiting thread in sight if and only if it is not one of those that lose one. */
  lemma StepKeepsCovered(s: State, step: Step)
    requires Covered(s)
    ensures Covered(Next(s, step)) <==> !Loses(s, step)
  {
    match step
    case Request(server, listing) => RequestCovered(s, server, listing);
    case DrainNext(server, now) => DrainNextCovered(s, server, now);
    case Attempt(c, now) => AttemptCovered(s, c, now);
    case Message(c, at) => MessageCovered(s, c, at);
    case Connection(_, _) => StatusCovered(s, step);
    case Configure(_, _, _, _) => StatusCovered(s, step);
    case Close(_) =>
    case Claim(c, a, now) => ClaimCovered(s, c, a, now);
    case TransferTo(c, b, now) => TransferToCovered(s, c, b, now);
    case TransferToQueue(c) => TransferToQueueCovered(s, c);
    case Requeue(a, listed) =>
      if RequeuedCount(s.db, a, listed) == 0 { NothingRequeued(s.db, a, listed); }
  }

  ghost function After(s: State, steps: seq<Step>): State
    decreases |steps|
  {
    if steps == [] then s else After(Next(s, steps[0]), steps[1..])
  }

  ghost predicate CoveredThroughout(s: State, steps: seq<Step>)
    decreases |steps|
  {
    Covered(s) && (steps == [] || CoveredThroughout(Next(s, steps[0]), steps[1..]))
  }

  ghost predicate NoneLost(s: State, steps: seq<Step>)
    decreases |steps|
  {
    steps == [] || (!Loses(s, steps[0]) && NoneLost(Next(s, steps[0]), steps[1..]))
  }

  lemma {:induction false} CoveredThroughoutIff(s: State, steps: seq<Step>)
    requires Covered(s)
    ensures CoveredThroughout(s, steps) <==> NoneLost(s, steps)
    decreases |steps|
  {
    if steps != [] {
      StepKeepsCovered(s, steps[0]);
      if Covered(Next(s, steps[0])) {
        CoveredThroughoutIff(Next(s, steps[0]), steps[1..]);
      }
    }
  }

  /** Nothing is being drained, asked for or attempted. */
  predicate Quiet(s: State) {
    s.drains == map[] && s.requests == 0 && s.attempts == {}
  }

  lemma {:induction false} CoveredAfter(s: State, steps: seq<Step>)
    requires CoveredThroughout(s, steps)
    ensures Covered(After(s, steps))
    decreases |steps|
  {
    if steps != [] {
      CoveredAfter(Next(s, steps[0]), steps[1..]);
    }
  }

  /**
   Unless a thread was lost, any interleaving of drains that has come to rest leaves nobody waiting
   or nobody available.
   */
  lemma NobodyLeftWaiting(s: State, steps: seq<Step>)
    requires Covered(s) && NoneLost(s, steps) && Quiet(After(s, steps))
    ensures NoneWaiting(After(s, steps).db) || NoneAvailable(After(s, steps).roster, After(s, steps).db)
  {
    CoveredThroughoutIff(s, steps);
    CoveredAfter(s, steps);
    var s' := After(s, steps);
    if !NoneAvailable(s'.roster, s'.db) {
      forall c | c in s'.db.conversations
        ensures !InQueue(s'.db, c)
      {
        assert !LeftOut(s', c) && !InHand(s', c);
      }
    }
  }

  // ----- the losses are real -----

  const AGENT := DEFAULT_PROFILE.(availability := Online, maxConcurrentChats := 1)
  const ROSTER := Roster([1, 2], map[1 := Presence(true, None), 2 := Presence(true, None)])

  /** Thread 7 as given, thread 8 waiting since `since`; agent 2 is busy. */
  function Records(active1: int, active2: int, x7: Conversation, since: Option<int>): Db {
    Db(map[1 := AGENT.(activeChats := active1), 2 := AGENT.(availability := Busy, activeChats := active2)],
       map[7 := x7, 8 := Conversation(Open, None, General, since)])
  }

  function Thread7(status: Status, holder: Option<AgentId>): Conversation {
    Conversation(status, holder, General, Some(0))
  }

  ghost predicate LeftWaiting(s: State) {
    Quiet(s) && exists c, a :: InQueue(s.db, c) && Available(s.roster, s.db, a)
  }

  lemma AfterStep(s: State, step: Step, t: State, rest: seq<Step>)
    requires Next(s, step) == t
    ensures After(s, [step] + rest) == After(t, rest)
  {
    assert ([step] + rest)[1..] == rest;
  }

  /**
   Agent 1 is full with thread 7 and thread 8 waits. Transferring thread 7 to agent 2 frees agent 1,
   and nobody looks.
   */
  lemma TransferLeavesWaiting() returns (s: State, step: Step)
    ensures Covered(s) && Quiet(s) && Loses(s, step) && LeftWaiting(Next(s, step))
  {
    s := State(ROSTER, Records(1, 0, Thread7(Open, Some(1)), Some(5)), map[], 0, {});
    step := TransferTo(7, 2, 9);
    var s' := Next(s, step);
    assert LeftOut(s, 8);
    assert InQueue(s'.db, 8) && Available(s'.roster, s'.db, 1);
  }

  /** Agent 1's counter, thread 7, since when thread 8 waits, whether server 0 drains, and what is asked for. */
  function Scene(
    active1: int, x7: Conversation, since: Option<int>, draining: bool, requests: nat,
        attempts: set<ConversationId>): State
  {
    State(ROSTER, Records(active1, 0, x7, since), if draining then map[0 := []] else map[], requests, attempts)
  }

  /** A drain begins on an empty queue, then thread 8 comes and finds agent 1 full. */
  lemma ThreadWaits() returns (steps: seq<Step>)
    ensures After(Scene(1, Thread7(Open, Some(1)), None, false, 0, {}), steps)
            == Scene(1, Thread7(Open, Some(1)), Some(5), true, 0, {})
  {
    var x7 := Thread7(Open, Some(1));
    var s0, s1 := Scene(1, x7, None, false, 0, {}), Scene(1, x7, None, false, 1, {});
    var s2, s3, s4 := Scene(1, x7, None, true, 0, {}), Scene(1, x7, Some(5), true, 0, {8}),
        Scene(1, x7, Some(5), true, 0, {});
    SceneAttempt(s3, s4);
    SceneMessage(s2, s3);
    SceneBegin(s1, s2);
    SceneAsked(s0, s1);
    AfterStep(s3, Attempt(8, 6), s4, []);
    var q := [Attempt(8, 6)] + [];
    AfterStep(s2, Message(8, 5), s3, q);
    q := [Message(8, 5)] + q;
    AfterStep(s1, Request(0, []), s2, q);
    q := [Request(0, [])] + q;
    AfterStep(s0, Configure(1, Online, {}, 1), s1, q);
    steps := [Configure(1, Online, {}, 1)] + q;
  }

  lemma SceneAsked(s: State, t: State)
    requires s == Scene(1, Thread7(Open, Some(1)), None, false, 0, {})
    requires t == Scene(1, Thread7(Open, Some(1)), None, false, 1, {})
    ensures Next(s, Configure(1, Online, {}, 1)) == t
  {
    assert Next(s, Configure(1, Online, {}, 1)).db.profiles == t.db.profiles;
  }

  lemma SceneBegin(s: State, t: State)
    requires s == Scene(1, Thread7(Open, Some(1)), None, false, 1, {})
    requires t == Scene(1, Thread7(Open, Some(1)), None, true, 0, {})
    ensures Next(s, Request(0, [])) == t
  {
    assert IsQueueListing(s.db, QUEUE_LIMIT, []);
    assert Next(s, Request(0, [])).drains == t.drains;
  }

  lemma SceneMessage(s: State, t: State)
    requires s == Scene(1, Thread7(Open, Some(1)), None, true, 0, {})
    requires t == Scene(1, Thread7(Open, Some(1)), Some(5), true, 0, {8})
    ensures Next(s, Message(8, 5)) == t
  {
    assert Next(s, Message(8, 5)).db.conversations == t.db.conversations;
  }

  lemma SceneAttempt(s: State, t: State)
    requires s == Scene(1, Thread7(Open, Some(1)), Some(5), true, 0, {8})
    requires t == Scene(1, Thread7(Open, Some(1)), Some(5), true, 0, {})
    ensures Next(s, Attempt(8, 6)) == t
  {
    assert NoneAvailable(s.roster, s.db);
    assert EnsureProfiles(s.db, s.roster.agents).profiles == s.db.profiles;
  }

  /** Closing thread 7 frees agent 1 and asks for a drain, which is dropped; then the running drain ends. */
  lemma RequestDropped() returns (steps: seq<Step>)
    ensures After(Scene(1, Thread7(Open, Some(1)), Some(5), true, 0, {}), steps)
            == Scene(0, Thread7(Closed, None), Some(5), false, 0, {})
  {
    var s4 := Scene(1, Thread7(Open, Some(1)), Some(5), true, 0, {});
    var x7 := Thread7(Closed, None);
    var s5, s6, s7 := Scene(0, x7, Some(5), true, 1, {}), Scene(0, x7, Some(5), true, 0, {}),
        Scene(0, x7, Some(5), false, 0, {});
    SceneClose(s4, s5);
    SceneDrop(s5, s6);
    assert Next(s6, DrainNext(0, 7)).drains == s7.drains;
    AfterStep(s6, DrainNext(0, 7), s7, []);
    var q := [DrainNext(0, 7)] + [];
    AfterStep(s5, Request(0, [8]), s6, q);
    q := [Request(0, [8])] + q;
    AfterStep(s4, Close(7), s5, q);
    steps := [Close(7)] + q;
  }

  lemma SceneClose(s: State, t: State)
    requires s == Scene(1, Thread7(Open, Some(1)), Some(5), true, 0, {})
    requires t == Scene(0, Thread7(Closed, None), Some(5), true, 1, {})
    ensures Next(s, Close(7)) == t
  {
    assert Next(s, Close(7)).db.profiles == t.db.profiles;
    assert Next(s, Close(7)).db.conversations == t.db.conversations;
  }

  lemma SceneDrop(s: State, t: State)
    requires s == Scene(0, Thread7(Closed, None), Some(5), true, 1, {})
    requires t == Scene(0, Thread7(Closed, None), Some(5), true, 0, {})
    ensures Next(s, Request(0, [8])) == t
  {
    assert IsQueueListing(s.db, QUEUE_LIMIT, [8]);
  }

  lemma {:induction false} AfterConcat(s: State, xs: seq<Step>, ys: seq<Step>)
    ensures After(s, xs + ys) == After(After(s, xs), ys)
    decreases |xs|
  {
    if xs == [] {
      assert xs + ys == ys;
    } else {
      AfterConcat(Next(s, xs[0]), xs[1..], ys);
      assert (xs + ys)[1..] == xs[1..] + ys;
    }
  }

  /** A drain request that meets a drain with an older listing is lost, and with it the waiting thread. */
  lemma DroppedRequestLeavesWaiting() returns (s: State, steps: seq<Step>)
    ensures Covered(s) && Quiet(s) && LeftWaiting(After(s, steps))
  {
    s := Scene(1, Thread7(Open, Some(1)), None, false, 0, {});
    var waits := ThreadWaits();
    var dropped := RequestDropped();
    steps := waits + dropped;
    AfterConcat(s, waits, dropped);
    var s' := After(s, steps);
    assert InQueue(s'.db, 8) && Available(s'.roster, s'.db, 1);
    assert forall c :: !LeftOut(s, c);
  }
}
