/** The agent profile store and the thread store, updated in place by single-document operations. */
module Stores {
  import opened Options
  import opened Counting
  import opened Desk
  import opened Ordering
  import opened Routing

  class AgentsService {
    var profiles: map<AgentId, Profile>

    constructor ()
      ensures profiles == map[]
    {
      profiles := map[];
    }

    /** Creates missing profiles; existing ones are untouched. */
    method EnsureProfiles(agents: seq<AgentId>)
      modifies this
      ensures profiles == WithProfiles(old(profiles), agents)
    {
      var i := 0;
      while i < |agents|
        invariant 0 <= i <= |agents|
        invariant forall a :: a in profiles <==> a in old(profiles) || a in agents[..i]
        invariant forall a :: a in profiles ==> profiles[a] == ProfileOf(Db(old(profiles), map[]), a)
      {
        if agents[i] !in profiles {
          profiles := profiles[agents[i] := DEFAULT_PROFILE];
        }
        i := i + 1;
      }
    }

    /** Counts one more chat, without regard to the maximum when forced. */
    method ReserveSlot(a: AgentId, force: bool, now: int) returns (ok: bool)
      modifies this
      ensures var d := EnsureProfile(Db(old(profiles), map[]), a);
              var limit := if force then None else Some(ProfileOf(d, a).maxConcurrentChats);
              ok == CanTake(d, a, limit) && profiles == TakeSlot(d, a, limit, now).profiles
      ensures var p := if a in old(profiles) then old(profiles)[a] else Profile(Offline, {}, 5, 0, None);
              && ok == (force || p.activeChats < p.maxConcurrentChats)
              && profiles == old(profiles)[a := if ok
                                                then p.(activeChats := p.activeChats + 1, lastAssignedAt := Some(now))
                                                else p]
    {
      if a !in profiles {
        profiles := profiles[a := DEFAULT_PROFILE];
      }
      assert profiles == EnsureProfile(Db(old(profiles), map[]), a).profiles;
      var p := profiles[a];
      ok := force || p.activeChats < p.maxConcurrentChats;
      if ok {
        profiles := profiles[a := p.(activeChats := p.activeChats + 1, lastAssignedAt := Some(now))];
      }
    }

    method ReleaseSlot(a: AgentId)
      modifies this
      ensures profiles == Desk.ReleaseSlot(Db(old(profiles), map[]), a).profiles
      ensures profiles == if a in old(profiles) && old(profiles)[a].activeChats > 0
                          then old(profiles)[a := old(profiles)[a].(activeChats := old(profiles)[a].activeChats - 1)]
                          else old(profiles)
    {
      if a in profiles && profiles[a].activeChats > 0 {
        profiles := profiles[a := profiles[a].(activeChats := profiles[a].activeChats - 1)];
      }
    }

    /** Overwrites the counters with the given counts. */
    method SyncActiveChats(counts: map<AgentId, int>)
      modifies this
      ensures profiles == SyncedProfiles(old(profiles), counts)
    {
      var entries := ToSeq(counts.Keys);
      var i := 0;
      while i < |entries|
        invariant 0 <= i <= |entries|
        invariant profiles.Keys == old(profiles).Keys
        invariant forall a :: a in profiles ==>
                    profiles[a] == if a in entries[..i]
                                   then old(profiles)[a].(activeChats := counts[a])
                                   else old(profiles)[a]
      {
        var a := entries[i];
        if a in profiles && profiles[a].activeChats != counts[a] {
          profiles := profiles[a := profiles[a].(activeChats := counts[a])];
        }
        i := i + 1;
      }
    }
  }

  class ConversationsService {
    var conversations: map<ConversationId, Conversation>

    constructor ()
      ensures conversations == map[]
    {
      conversations := map[];
    }

    method AssignIfUnassigned(c: ConversationId, a: AgentId) returns (ok: bool)
      modifies this
      ensures var d := Db(map[], old(conversations));
              ok == CanReassign(d, c, None) && conversations == Desk.Reassign(d, c, None, Some(a)).conversations
      ensures ok <==> && c in old(conversations) && old(conversations)[c].status == Open
                      && old(conversations)[c].assignedAgentId == None
      ensures conversations == if ok
                               then old(conversations)[c := old(conversations)[c].(assignedAgentId := Some(a))]
                               else old(conversations)
    {
      ok := c in conversations && conversations[c].status.Open? && conversations[c].assignedAgentId.None?;
      if ok {
        conversations := conversations[c := conversations[c].(assignedAgentId := Some(a))];
      }
    }

    method Reassign(c: ConversationId, from: Option<AgentId>, to: Option<AgentId>) returns (ok: bool)
      modifies this
      ensures var d := Db(map[], old(conversations));
              ok == CanReassign(d, c, from) && conversations == Desk.Reassign(d, c, from, to).conversations
      ensures ok <==> && c in old(conversations) && old(conversations)[c].status == Open
                      && old(conversations)[c].assignedAgentId == from
      ensures conversations == if ok
                               then old(conversations)[c := old(conversations)[c].(assignedAgentId := to)]
                               else old(conversations)
    {
      ok := c in conversations && conversations[c].status.Open? && conversations[c].assignedAgentId == from;
      if ok {
        conversations := conversations[c := conversations[c].(assignedAgentId := to)];
      }
    }

    /** Closes an open thread and tells what it was before, or `None` if it was not open. */
    method Close(c: ConversationId) returns (before: Option<Conversation>)
      modifies this
      ensures conversations == CloseConversation(Db(map[], old(conversations)), c).conversations
      ensures before == if c in old(conversations) && old(conversations)[c].status == Open
                        then Some(old(conversations)[c])
                        else None
      ensures conversations == if before.Some?
                               then old(conversations)[c := before.value.(status := Closed, assignedAgentId := None)]
                               else old(conversations)
    {
      before := None;
      if c in conversations && conversations[c].status.Open? {
        before := Some(conversations[c]);
        conversations := conversations[c := conversations[c].(status := Closed, assignedAgentId := None)];
      }
    }

    /** Opens a closed thread again, as its customer writes into it: it has nobody, and so waits. */
    method ReopenIfClosed(c: ConversationId) returns (reopened: bool)
      modifies this
      ensures conversations == Desk.ReopenIfClosed(Db(map[], old(conversations)), c).conversations
      ensures reopened <==> c in old(conversations) && old(conversations)[c].status == Closed
      ensures conversations == if reopened
                               then old(conversations)[c := old(conversations)[c].(status := Open)]
                               else old(conversations)
      ensures reopened && ClosedUnassigned(Db(map[], old(conversations)))
              && old(conversations)[c].lastMessageAt.Some? ==>
                InQueue(Db(map[], conversations), c)
    {
      reopened := c in conversations && conversations[c].status.Closed?;
      if reopened {
        conversations := conversations[c := conversations[c].(status := Open)];
      }
    }

    /** The longest-waiting threads first; threads that waited equally long come in any order. */
    method ListQueue(limit: nat) returns (queue: seq<ConversationId>)
      ensures IsQueueListing(Db(map[], conversations), limit, queue)
    {
      ghost var d := Db(map[], conversations);
      queue := [];
      var rest := set c | c in conversations && conversations[c].status.Open?
                          && conversations[c].assignedAgentId.None? && conversations[c].lastMessageAt.Some?;
      ghost var waiting := rest;
      while rest != {} && |queue| < limit
        invariant rest <= waiting && |queue| <= limit && Distinct(queue)
        invariant forall c :: c in queue <==> c in waiting - rest
        invariant forall i, j :: 0 <= i < j < |queue| ==> WaitingSince(d, queue[i]) <= WaitingSince(d, queue[j])
        invariant forall c, k :: c in rest && 0 <= k < |queue| ==> WaitingSince(d, queue[k]) <= WaitingSince(d, c)
        decreases rest
      {
        OldestExists(d, rest);
        var oldest :| oldest in rest && forall x :: x in rest ==>
          conversations[oldest].lastMessageAt.value <= conversations[x].lastMessageAt.value;
        DistinctAppend(queue, oldest);
        queue, rest := queue + [oldest], rest - {oldest};
      }
    }

    method ListOpenAssignedTo(a: AgentId) returns (listed: seq<ConversationId>)
      ensures Distinct(listed) && |listed| == OpenCount(Db(map[], conversations), a)
      ensures forall c :: c in listed <==> c in conversations && HeldBy(a)(conversations[c])
    {
      var held := set c: ConversationId | c in conversations && HeldBy(a)(conversations[c]);
      CountIs(conversations, HeldBy(a), held);
      listed := ToSeq(held);
    }

    /** Open threads held by anyone outside `agents`, each with its holder. */
    method ListOpenAssignedOutside(agents: seq<AgentId>) returns (listed: seq<(ConversationId, AgentId)>)
      ensures forall p :: p in listed <==>
                p.0 in conversations && HeldBy(p.1)(conversations[p.0]) && p.1 !in agents
    {
      var rest := set c: ConversationId | c in conversations && conversations[c].status.Open?
                    && conversations[c].assignedAgentId.Some? && conversations[c].assignedAgentId.value !in agents;
      ghost var orphans := rest;
      listed := [];
      while rest != {}
        invariant rest <= orphans
        invariant forall p :: p in listed <==>
                    p.0 in orphans && p.0 !in rest && conversations[p.0].assignedAgentId == Some(p.1)
        decreases rest
      {
        var c :| c in rest;
        listed, rest := listed + [(c, conversations[c].assignedAgentId.value)], rest - {c};
      }
    }

    /** How many open threads each of the agents holds, zero included. */
    method CountOpenByAgent(agents: seq<AgentId>) returns (counts: map<AgentId, int>)
      ensures forall a :: a in counts <==> a in agents
      ensures forall a :: a in agents ==> counts[a] == OpenCount(Db(map[], conversations), a)
    {
      counts := map[];
      var i := 0;
      while i < |agents|
        invariant 0 <= i <= |agents|
        invariant forall a :: a in counts <==> a in agents[..i]
        invariant forall a :: a in counts ==> counts[a] == OpenCount(Db(map[], conversations), a)
      {
        var rows := set c: ConversationId | c in conversations && HeldBy(agents[i])(conversations[c]);
        CountIs(conversations, HeldBy(agents[i]), rows);
        counts := counts[agents[i] := |rows|];
        i := i + 1;
      }
    }
  }
}
