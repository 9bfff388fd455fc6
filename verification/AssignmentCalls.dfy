/**
 What each routing call does: with other calls in between, which operations it may come to; with
 nothing in between, which records it leaves, field by field.
 */
module AssignmentCalls {
  import opened Ids
  import opened Options
  import opened Desk
  import opened AssignmentRuns
  import opened Routing

  // ----- in every interleaving -----

  /**
   Whatever the records and the inputs are, a run for which `p` holds is one for which it holds
   after its next step.
   */
  ghost predicate Stable(p: Run -> bool) {
    forall d, r, i :: p(r) ==> p(Advance(d, r, i).1)
  }

  lemma {:induction false} StaysSo(s: State, steps: seq<Step>, id: RunId, p: Run -> bool)
    requires Stable(p) && id in s.runs && p(s.runs[id])
    ensures id in After(s, steps).runs && p(After(s, steps).runs[id])
    decreases |steps|
  {
    if steps != [] {
      StaysSo(Next(s, steps[0]), steps[1..], id, p);
    }
  }

  /** A close asked for by someone who is not an admin only ever closes a thread that it read as theirs. */
  lemma ClosesOnlyOwn(s: State, steps: seq<Step>, id: RunId, c: ConversationId, actor: AgentId)
    requires id in s.runs && s.runs[id] == CloseStart(c, actor, false)
    ensures id in After(s, steps).runs
    ensures var r := After(s, steps).runs[id];
            r in {CloseStart(c, actor, false), CloseUpdate(c, Some(actor)), Release(actor), Done}
  {
    var p := (r: Run) => r in {CloseStart(c, actor, false), CloseUpdate(c, Some(actor)), Release(actor), Done};
    forall d, r, i | p(r)
      ensures p(Advance(d, r, i).1)
    {
    }
    StaysSo(s, steps, id, p);
  }

  /** A claim concerns one thread and its claimant, and comes to nothing for anyone but an agent. */
  lemma ClaimsForAgentsOnly(s: State, steps: seq<Step>, id: RunId, c: ConversationId, a: AgentId, isAgent: bool)
    requires id in s.runs && s.runs[id] == ClaimStart(c, a, isAgent)
    ensures id in After(s, steps).runs
    ensures var r := After(s, steps).runs[id];
            || r in {ClaimStart(c, a, isAgent), Done}
            || (isAgent && r in {ClaimEnsure(c, a), ClaimReserve(c, a), ClaimAssign(c, a), Release(a)})
  {
    var p := (r: Run) =>
      || r in {ClaimStart(c, a, isAgent), Done}
      || (isAgent && r in {ClaimEnsure(c, a), ClaimReserve(c, a), ClaimAssign(c, a), Release(a)});
    forall d, r, i | p(r)
      ensures p(Advance(d, r, i).1)
    {
    }
    StaysSo(s, steps, id, p);
  }

  /** A transfer concerns one thread, never moves it from an agent to the same one, and releases only one of the two. */
  lemma TransfersToAnother(s: State, steps: seq<Step>, id: RunId, c: ConversationId, to: Option<AgentId>)
    requires id in s.runs && s.runs[id] == TransferStart(c, to)
    ensures id in After(s, steps).runs
    ensures TransferStage(c, to, After(s, steps).runs[id])
  {
    var p := (r: Run) => TransferStage(c, to, r);
    forall d, r, i | p(r)
      ensures p(Advance(d, r, i).1)
    {
    }
    StaysSo(s, steps, id, p);
  }

  predicate TransferStage(c: ConversationId, to: Option<AgentId>, r: Run) {
    match r
    case TransferStart(x, b) => x == c && b == to
    case TransferEnsure(x, from, b) => x == c && Some(b) == to && from != to
    case TransferReserve(x, from, b) => x == c && Some(b) == to && from != to
    case TransferMove(x, from, b) => x == c && b == to && from != to
    case Release(_) => true
    case Done => true
    case _ => false
  }

  // ----- every call ends -----

  /** How many operations a run has left at most, if it is given lists of at most `n`. */
  function Left(r: Run, n: nat): nat {
    match r
    case AutoStart(_) => 3 * n + 4
    case AutoNext(_, candidates) => 3 * |candidates| + 3
    case AutoReadLimit(_, candidates) => 3 * |candidates| + 2
    case AutoReserve(_, candidates, _) => 3 * |candidates| + 1
    case ClaimStart(_, _, _) => 5
    case ClaimEnsure(_, _) => 4
    case ClaimReserve(_, _) => 3
    case TransferStart(_, _) => 5
    case TransferEnsure(_, _, _) => 4
    case TransferReserve(_, _, _) => 3
    case CloseStart(_, _, _) => 3
    case RequeueStart(_) => 2 * n + 2
    case RequeueNext(_, listed) => 2 * |listed| + 1
    case RequeueRelease(_, listed) => 2 * |listed| + 2
    case AutoAssign(_, _) => 2
    case ClaimAssign(_, _) => 2
    case TransferMove(_, _, _) => 2
    case CloseUpdate(_, _) => 2
    case Release(_) => 1
    case Done => 0
  }

  predicate ShortLists(i: Inputs, n: nat) {
    |i.candidates| <= n && |i.listed| <= n
  }

  lemma OneLeftLess(d: Db, r: Run, i: Inputs, n: nat)
    requires ShortLists(i, n)
    ensures r.Done? ==> Advance(d, r, i).1.Done?
    ensures !r.Done? ==> Left(Advance(d, r, i).1, n) < Left(r, n)
  {
  }

  function StepsOf(steps: seq<Step>, id: RunId): nat
    decreases |steps|
  {
    if steps == [] then 0
    else (if steps[0].Continue? && steps[0].id == id then 1 else 0) + StepsOf(steps[1..], id)
  }

  /** Whatever runs in between, a call that is given as many steps as it has operations is done. */
  lemma {:induction false} EveryCallEnds(s: State, steps: seq<Step>, id: RunId, n: nat)
    requires id in s.runs && Left(s.runs[id], n) <= StepsOf(steps, id)
    requires forall k :: 0 <= k < |steps| && steps[k].Continue? ==> ShortLists(steps[k].i, n)
    ensures id in After(s, steps).runs && After(s, steps).runs[id] == Done
    decreases |steps|
  {
    if steps != [] {
      if steps[0].Continue? && steps[0].id == id {
        OneLeftLess(s.db, s.runs[id], steps[0].i, n);
      }
      forall k | 0 <= k < |steps| - 1 && steps[1..][k].Continue?
        ensures ShortLists(steps[1..][k].i, n)
      {
        assert steps[k + 1] == steps[1..][k];
      }
      EveryCallEnds(Next(s, steps[0]), steps[1..], id, n);
    }
  }

  // ----- writes by other parts of the program -----

  /**
   A settings change, a new thread, a message and a customer who writes to a closed thread touch no
   counter and no assignment.
   */
  lemma OtherWrites(s: State, step: Step)
    requires !step.Begin? && !step.Continue?
    ensures Next(s, step).runs == s.runs
    ensures forall a: AgentId ::
              && Active(Next(s, step).db, a) == Active(s.db, a)
              && ProfileOf(Next(s, step).db, a).lastAssignedAt == ProfileOf(s.db, a).lastAssignedAt
    ensures s.db.conversations.Keys <= Next(s, step).db.conversations.Keys
    ensures forall c :: c in s.db.conversations ==>
              Next(s, step).db.conversations[c].assignedAgentId == s.db.conversations[c].assignedAgentId
    ensures step.Configure? ==>
              var p := ProfileOf(Next(s, step).db, step.a);
              p.availability == step.availability && p.skills == step.skills
              && p.maxConcurrentChats == step.maxConcurrentChats
    ensures step.NewThread? ==> step.c in Next(s, step).db.conversations
    ensures step.NewThread? && step.c !in s.db.conversations ==> OpenHeldBy(Next(s, step).db, step.c, None)
    ensures step.Touch? && step.c in s.db.conversations ==>
              var x := Next(s, step).db.conversations[step.c];
              x.topic == step.topic && x.lastMessageAt == step.lastMessageAt
    ensures step.Reopen? && step.c in s.db.conversations ==> Next(s, step).db.conversations[step.c].status == Open
  {
  }

  // ----- one call alone -----

  /** The records and the run after `n` steps of the run with nothing in between. */
  function Solo(d: Db, r: Run, i: Inputs, n: nat): (Db, Run)
    decreases n
  {
    if n == 0 then (d, r)
    else
      var (d', r') := Advance(d, r, i);
      Solo(d', r', i, n - 1)
  }

  lemma SoloStep(d: Db, r: Run, i: Inputs, d1: Db, r1: Run, n: nat)
    requires Advance(d, r, i).0.profiles == d1.profiles && Advance(d, r, i).0.conversations == d1.conversations
    requires Advance(d, r, i).1 == r1
    ensures Solo(d, r, i, n + 1) == Solo(d1, r1, i, n)
  {
  }

  predicate OpenHeldBy(d: Db, c: ConversationId, holder: Option<AgentId>) {
    c in d.conversations && d.conversations[c].status == Open && d.conversations[c].assignedAgentId == holder
  }

  /** The profiles with one chat less on an agent, unless the agent counts none. */
  function OneLess(profiles: map<AgentId, Profile>, a: Option<AgentId>): map<AgentId, Profile> {
    if a.Some? && a.value in profiles && profiles[a.value].activeChats >= 1 then
      profiles[a.value := profiles[a.value].(activeChats := profiles[a.value].activeChats - 1)]
    else
      profiles
  }

  /** The profiles with one chat more on an agent, counted now; a new profile starts from the defaults. */
  function OneMore(d: Db, a: AgentId, now: int): map<AgentId, Profile> {
    var p := if a in d.profiles then d.profiles[a] else Profile(Offline, {}, 5, 0, None);
    d.profiles[a := p.(activeChats := p.activeChats + 1, lastAssignedAt := Some(now))]
  }

  predicate MayClose(d: Db, c: ConversationId, actor: AgentId, isAdmin: bool) {
    && c in d.conversations && d.conversations[c].status == Open
    && (isAdmin || d.conversations[c].assignedAgentId == Some(actor))
  }

  /**
   A close by the holder or an admin closes the thread and gives the holder's slot back; any other
   changes nothing.
   */
  lemma CloseAlone(d: Db, c: ConversationId, actor: AgentId, isAdmin: bool, i: Inputs)
    ensures var (d', r) := Solo(d, CloseStart(c, actor, isAdmin), i, 3);
            && r == Done
            && (!MayClose(d, c, actor, isAdmin) ==> d' == d)
            && (MayClose(d, c, actor, isAdmin) ==>
                  && d'.conversations
                      == d.conversations[c := d.conversations[c].(status := Closed, assignedAgentId := None)]
                  && d'.profiles == OneLess(d.profiles, d.conversations[c].assignedAgentId))
  {
  }

  /** A claim gives a waiting thread to the agent, counted whatever their maximum; any other changes nothing. */
  lemma ClaimAlone(d: Db, c: ConversationId, a: AgentId, isAgent: bool, i: Inputs)
    ensures var (d', r) := Solo(d, ClaimStart(c, a, isAgent), i, 4);
            && r == Done
            && (isAgent && OpenHeldBy(d, c, None) ==>
                  && d'.conversations == d.conversations[c := d.conversations[c].(assignedAgentId := Some(a))]
                  && d'.profiles == OneMore(d, a, i.now))
            && (!(isAgent && OpenHeldBy(d, c, None)) ==> d' == d)
  {
  }

  /** A transfer to the holder, or to someone who is not an agent, changes nothing. */
  lemma TransferRefused(d: Db, c: ConversationId, from: Option<AgentId>, to: Option<AgentId>, i: Inputs)
    requires OpenHeldBy(d, c, from) && (from == to || (to.Some? && !i.isAgent))
    ensures Solo(d, TransferStart(c, to), i, 1) == (d, Done)
  {
  }

  lemma ReleasedAlone(d: Db, from: Option<AgentId>, i: Inputs)
    ensures Solo(d, ReleaseAfter(from), i, 1) == (d.(profiles := OneLess(d.profiles, from)), Done)
  {
  }

  /** A transfer back to the queue takes the thread and its slot from the holder. */
  lemma TransferToQueueAlone(d: Db, c: ConversationId, from: AgentId, i: Inputs)
    requires OpenHeldBy(d, c, Some(from))
    ensures var (d', r) := Solo(d, TransferStart(c, None), i, 3);
            && r == Done
            && d'.conversations == d.conversations[c := d.conversations[c].(assignedAgentId := None)]
            && d'.profiles == OneLess(d.profiles, Some(from))
  {
    var d1 := d.(conversations := d.conversations[c := d.conversations[c].(assignedAgentId := None)]);
    SoloStep(d, TransferMove(c, Some(from), None), i, d1, Release(from), 1);
    SoloStep(d, TransferStart(c, None), i, d, TransferMove(c, Some(from), None), 2);
    ReleasedAlone(d1, Some(from), i);
  }

  lemma MovedAlone(d: Db, c: ConversationId, from: Option<AgentId>, b: AgentId, i: Inputs)
    requires OpenHeldBy(d, c, from) && from != Some(b)
    ensures var (d', r) := Solo(d, TransferMove(c, from, Some(b)), i, 2);
            && r == Done
            && d'.conversations == d.conversations[c := d.conversations[c].(assignedAgentId := Some(b))]
            && d'.profiles == OneLess(d.profiles, from)
  {
    var d1 := d.(conversations := d.conversations[c := d.conversations[c].(assignedAgentId := Some(b))]);
    SoloStep(d, TransferMove(c, from, Some(b)), i, d1, ReleaseAfter(from), 1);
    ReleasedAlone(d1, from, i);
  }

  lemma EnsuredAlone(d: Db, c: ConversationId, from: Option<AgentId>, b: AgentId, i: Inputs)
    ensures Advance(d, TransferEnsure(c, from, b), i)
            == (d.(profiles := d.profiles[b := ProfileOf(d, b)]), TransferReserve(c, from, b))
  {
  }

  lemma CountedAlone(d: Db, c: ConversationId, from: Option<AgentId>, b: AgentId, i: Inputs)
    ensures Advance(d.(profiles := d.profiles[b := ProfileOf(d, b)]), TransferReserve(c, from, b), i)
            == (d.(profiles := OneMore(d, b, i.now)), TransferMove(c, from, Some(b)))
  {
    var d1 := d.(profiles := d.profiles[b := ProfileOf(d, b)]);
    assert TakeSlot(d1, b, None, i.now).profiles == OneMore(d, b, i.now);
  }

  lemma ReservedAlone(d: Db, c: ConversationId, from: Option<AgentId>, b: AgentId, i: Inputs)
    ensures Solo(d, TransferEnsure(c, from, b), i, 2)
            == (d.(profiles := OneMore(d, b, i.now)), TransferMove(c, from, Some(b)))
  {
    var d1, d2 := d.(profiles := d.profiles[b := ProfileOf(d, b)]), d.(profiles := OneMore(d, b, i.now));
    EnsuredAlone(d, c, from, b, i);
    CountedAlone(d, c, from, b, i);
    SoloStep(d1, TransferReserve(c, from, b), i, d2, TransferMove(c, from, Some(b)), 0);
    SoloStep(d, TransferEnsure(c, from, b), i, d1, TransferReserve(c, from, b), 1);
  }

  lemma {:induction false} SoloSplit(d: Db, r: Run, i: Inputs, m: nat, n: nat)
    ensures var (d1, r1) := Solo(d, r, i, m); Solo(d, r, i, m + n) == Solo(d1, r1, i, n)
    decreases m
  {
    if m > 0 {
      var (d1, r1) := Advance(d, r, i);
      SoloSplit(d1, r1, i, m - 1, n);
    }
  }

  /** A transfer to another agent counts the chat on them, moves the thread and gives the former holder's slot back. */
  lemma TransferToAgentAlone(d: Db, c: ConversationId, from: Option<AgentId>, b: AgentId, i: Inputs)
    requires OpenHeldBy(d, c, from) && from != Some(b) && i.isAgent
    ensures var (d', r) := Solo(d, TransferStart(c, Some(b)), i, 5);
            && r == Done
            && d'.conversations == d.conversations[c := d.conversations[c].(assignedAgentId := Some(b))]
            && d'.profiles == OneLess(OneMore(d, b, i.now), from)
  {
    SoloStep(d, TransferStart(c, Some(b)), i, d, TransferEnsure(c, from, b), 4);
    ReservedAlone(d, c, from, b, i);
    SoloSplit(d, TransferEnsure(c, from, b), i, 2, 2);
    MovedAlone(d.(profiles := OneMore(d, b, i.now)), c, from, b, i);
  }

  lemma TransferOfClosed(d: Db, c: ConversationId, to: Option<AgentId>, i: Inputs)
    requires !(c in d.conversations && d.conversations[c].status == Open)
    ensures Solo(d, TransferStart(c, to), i, 1) == (d, Done)
  {
  }

  predicate RoomFor(d: Db, a: AgentId) {
    if a in d.profiles then d.profiles[a].activeChats < d.profiles[a].maxConcurrentChats else true
  }

  /** A candidate without room is passed over and nothing changes. */
  lemma PassedOver(d: Db, c: ConversationId, candidates: seq<AgentId>, i: Inputs)
    requires candidates != [] && !RoomFor(d, candidates[0])
    ensures Solo(d, AutoNext(c, candidates), i, 3) == (d, AutoNext(c, candidates[1..]))
  {
    var a := candidates[0];
    var limit := d.profiles[a].maxConcurrentChats;
    SoloStep(d, AutoReserve(c, candidates, limit), i, d, AutoNext(c, candidates[1..]), 0);
    SoloStep(d, AutoReadLimit(c, candidates), i, d, AutoReserve(c, candidates, limit), 1);
    SoloStep(d, AutoNext(c, candidates), i, d, AutoReadLimit(c, candidates), 2);
  }

  /** A candidate with room gets the waiting thread. */
  lemma Served(d: Db, c: ConversationId, candidates: seq<AgentId>, i: Inputs)
    requires candidates != [] && RoomFor(d, candidates[0]) && OpenHeldBy(d, c, None)
    ensures var (d', r) := Solo(d, AutoNext(c, candidates), i, 4);
            && r == Done
            && d'.conversations == d.conversations[c := d.conversations[c].(assignedAgentId := Some(candidates[0]))]
            && d'.profiles == OneMore(d, candidates[0], i.now)
  {
    var a := candidates[0];
    var p := if a in d.profiles then d.profiles[a] else Profile(Offline, {}, 5, 0, None);
    var d1, d2 := d.(profiles := d.profiles[a := p]), d.(profiles := OneMore(d, a, i.now));
    var d3 := d2.(conversations := d.conversations[c := d.conversations[c].(assignedAgentId := Some(a))]);
    SoloStep(d2, AutoAssign(c, a), i, d3, Done, 0);
    SoloStep(d1, AutoReserve(c, candidates, p.maxConcurrentChats), i, d2, AutoAssign(c, a), 1);
    SoloStep(d1, AutoReadLimit(c, candidates), i, d1, AutoReserve(c, candidates, p.maxConcurrentChats), 2);
    SoloStep(d, AutoNext(c, candidates), i, d1, AutoReadLimit(c, candidates), 3);
  }

  lemma {:induction false} CandidatesAlone(d: Db, c: ConversationId, candidates: seq<AgentId>, k: nat, i: Inputs)
    requires OpenHeldBy(d, c, None) && k <= |candidates|
    requires forall j :: 0 <= j < k ==> !RoomFor(d, candidates[j])
    requires k < |candidates| ==> RoomFor(d, candidates[k])
    ensures var (d', r) := Solo(d, AutoNext(c, candidates), i, 3 * k + 4);
            && r == Done
            && (k == |candidates| ==> d' == d)
            && (k < |candidates| ==>
                  && d'.conversations
                      == d.conversations[c := d.conversations[c].(assignedAgentId := Some(candidates[k]))]
                  && d'.profiles == OneMore(d, candidates[k], i.now))
    decreases k
  {
    if k > 0 {
      PassedOver(d, c, candidates, i);
      CandidatesAlone(d, c, candidates[1..], k - 1, i);
      SoloSplit(d, AutoNext(c, candidates), i, 3, 3 * (k - 1) + 4);
    } else if candidates != [] {
      Served(d, c, candidates, i);
    }
  }

  /**
   An `autoAssign` gives a waiting thread to the first candidate with room, if there is one; it
   leaves other threads alone.
   */
  lemma AutoAlone(d: Db, c: ConversationId, k: nat, i: Inputs)
    requires k <= |i.candidates| && forall j :: 0 <= j < k ==> !RoomFor(d, i.candidates[j])
    requires k < |i.candidates| ==> RoomFor(d, i.candidates[k])
    ensures var (d', r) := Solo(d, AutoStart(c), i, 3 * k + 5);
            && r == Done
            && (k == |i.candidates| || !OpenHeldBy(d, c, None) ==> d' == d)
            && (k < |i.candidates| && OpenHeldBy(d, c, None) ==>
                  && d'.conversations
                      == d.conversations[c := d.conversations[c].(assignedAgentId := Some(i.candidates[k]))]
                  && d'.profiles == OneMore(d, i.candidates[k], i.now))
  {
    if OpenHeldBy(d, c, None) {
      CandidatesAlone(d, c, i.candidates, k, i);
      SoloStep(d, AutoStart(c), i, d, AutoNext(c, i.candidates), 3 * k + 4);
    } else {
      SoloStep(d, AutoStart(c), i, d, Done, 3 * k + 4);
      DoneStays(d, i, 3 * k + 4);
    }
  }

  lemma {:induction false} DoneStays(d: Db, i: Inputs, n: nat)
    ensures Solo(d, Done, i, n) == (d, Done)
  {
    if n > 0 { DoneStays(d, i, n - 1); }
  }

  /** A requeue does to the threads it listed what the loop of the service does. */
  lemma {:induction false} RequeueAlone(d: Db, a: AgentId, listed: seq<ConversationId>, i: Inputs, n: nat)
    requires n >= 2 * |listed| + 1
    ensures Solo(d, RequeueNext(a, listed), i, n) == (RequeueAll(d, a, listed), Done)
    decreases |listed|
  {
    if listed == [] {
      SoloStep(d, RequeueNext(a, listed), i, d, Done, n - 1);
      DoneStays(d, i, n - 1);
    } else if CanReassign(d, listed[0], Some(a)) {
      var d1 := Reassign(d, listed[0], Some(a), None);
      SoloStep(d, RequeueNext(a, listed), i, d1, RequeueRelease(a, listed[1..]), n - 1);
      SoloStep(d1, RequeueRelease(a, listed[1..]), i, ReleaseSlot(d1, a), RequeueNext(a, listed[1..]), n - 2);
      RequeueAlone(ReleaseSlot(d1, a), a, listed[1..], i, n - 2);
    } else {
      SoloStep(d, RequeueNext(a, listed), i, d, RequeueNext(a, listed[1..]), n - 1);
      RequeueAlone(d, a, listed[1..], i, n - 1);
    }
  }

  lemma RequeueStartAlone(d: Db, a: AgentId, i: Inputs)
    ensures Solo(d, RequeueStart(a), i, 2 * |i.listed| + 2) == (RequeueAll(d, a, i.listed), Done)
  {
    SoloStep(d, RequeueStart(a), i, d, RequeueNext(a, i.listed), 2 * |i.listed| + 1);
    RequeueAlone(d, a, i.listed, i, 2 * |i.listed| + 1);
  }
}
