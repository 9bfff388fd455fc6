/**
 The two kinds of record that routing works on, agent profiles and conversations,
 and the single-document conditional updates made on them. Each function below is one
 atomic database operation; everything concurrent is built from them.
 */
module Desk {
  import opened Ids
  import opened Options
  import opened Counting

  type AgentId = UserId
  type ConversationId = ThreadId

  datatype Topic = General | Billing | Technical | Sales
  datatype Availability = Online | Busy | Offline
  datatype Status = Open | Closed

  datatype Profile = Profile(
    availability: Availability,
    skills: set<Topic>,
    maxConcurrentChats: int,
    activeChats: int,
    lastAssignedAt: Option<int>)

  datatype Conversation = Conversation(
    status: Status,
    assignedAgentId: Option<AgentId>,
    topic: Topic,
    lastMessageAt: Option<int>)

  const DEFAULT_MAX_CHATS := 5

  const DEFAULT_PROFILE := Profile(Offline, {}, DEFAULT_MAX_CHATS, 0, None)

  datatype Db = Db(profiles: map<AgentId, Profile>, conversations: map<ConversationId, Conversation>)

  /** What an agent's profile reads as once `ensureProfiles` has run. */
  function ProfileOf(d: Db, a: AgentId): Profile {
    if a in d.profiles then d.profiles[a] else DEFAULT_PROFILE
  }

  function Active(d: Db, a: AgentId): int {
    ProfileOf(d, a).activeChats
  }

  function HeldBy(a: AgentId): Conversation -> bool {
    (x: Conversation) => x.status.Open? && x.assignedAgentId == Some(a)
  }

  /** The real number of open chats of an agent. */
  ghost function OpenCount(d: Db, a: AgentId): nat {
    Count(d.conversations, HeldBy(a))
  }

  // ----- agent profiles -----

  function EnsureProfile(d: Db, a: AgentId): Db {
    d.(profiles := d.profiles[a := ProfileOf(d, a)])
  }

  /** The filter of `reserveSlot`: below `limit`, or no limit at all when forced. */
  predicate CanTake(d: Db, a: AgentId, limit: Option<int>) {
    a in d.profiles && (limit.None? || d.profiles[a].activeChats < limit.value)
  }

  function TakeSlot(d: Db, a: AgentId, limit: Option<int>, now: int): Db {
    if CanTake(d, a, limit) then
      var p := d.profiles[a];
      d.(profiles := d.profiles[a := p.(activeChats := p.activeChats + 1, lastAssignedAt := Some(now))])
    else
      d
  }

  function ReleaseSlot(d: Db, a: AgentId): Db {
    if a in d.profiles && d.profiles[a].activeChats > 0 then
      var p := d.profiles[a];
      d.(profiles := d.profiles[a := p.(activeChats := p.activeChats - 1)])
    else
      d
  }

  // ----- conversations -----

  predicate IsOpen(d: Db, c: ConversationId) {
    c in d.conversations && d.conversations[c].status.Open?
  }

  predicate CanReassign(d: Db, c: ConversationId, from: Option<AgentId>) {
    IsOpen(d, c) && d.conversations[c].assignedAgentId == from
  }

  function Reassign(d: Db, c: ConversationId, from: Option<AgentId>, to: Option<AgentId>): Db {
    if CanReassign(d, c, from) then
      d.(conversations := d.conversations[c := d.conversations[c].(assignedAgentId := to)])
    else
      d
  }

  function CloseConversation(d: Db, c: ConversationId): Db {
    if IsOpen(d, c) then
      d.(conversations := d.conversations[c := d.conversations[c].(status := Closed, assignedAgentId := None)])
    else
      d
  }

  function ReopenIfClosed(d: Db, c: ConversationId): Db {
    if c in d.conversations && d.conversations[c].status.Closed? then
      d.(conversations := d.conversations[c := d.conversations[c].(status := Open)])
    else
      d
  }

  /** A thread loses its agent when it is closed, so reopening it puts it in the queue. */
  ghost predicate ClosedUnassigned(d: Db) {
    forall c :: c in d.conversations && d.conversations[c].status.Closed? ==> d.conversations[c].assignedAgentId.None?
  }
}
