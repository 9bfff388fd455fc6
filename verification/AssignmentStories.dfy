/** Two interleavings that go wrong because a close releases the assignee it read before the thread changed hands. */
module AssignmentStories {
  import opened Ids
  import opened Options
  import opened Counting
  import opened Desk
  import opened AssignmentRuns
  import opened AssignmentCalls
  import opened AssignmentCapacity

  // ----- running one call for a while with nothing in between -----

  const CLOCK := Inputs([], [], true, 0)

  function Continues(id: RunId, i: Inputs, n: nat): seq<Step> {
    if n == 0 then [] else [Continue(id, i)] + Continues(id, i, n - 1)
  }

  lemma {:induction false} SoloAfter(s: State, id: RunId, i: Inputs, n: nat)
    requires id in s.runs
    ensures var (d, r) := Solo(s.db, s.runs[id], i, n);
            After(s, Continues(id, i, n)) == State(d, s.runs[id := r])
    ensures AllCapacityRespecting(s, Continues(id, i, n))
    decreases n
  {
    if n == 0 {
      assert s.runs[id := s.runs[id]] == s.runs;
    } else {
      var s1 := Next(s, Continue(id, i));
      SoloAfter(s1, id, i, n - 1);
      assert Continues(id, i, n)[1..] == Continues(id, i, n - 1);
      var r := Solo(s.db, s.runs[id], i, n).1;
      assert s1.runs[id := r] == s.runs[id := r];
    }
  }

  /** A call that starts in a state and runs for `n` steps. */
  function Call(id: RunId, r: Run, i: Inputs, n: nat): seq<Step> {
    [Begin(id, r)] + Continues(id, i, n)
  }

  lemma CallAfter(s: State, id: RunId, r: Run, i: Inputs, n: nat)
    requires id !in s.runs && IsEntry(r)
    ensures var (d, r') := Solo(s.db, r, i, n);
            After(s, Call(id, r, i, n)) == State(d, s.runs[id := r'])
    ensures CapacityRespecting(s, Begin(id, r)) ==> AllCapacityRespecting(s, Call(id, r, i, n))
  {
    var s1 := Next(s, Begin(id, r));
    SoloAfter(s1, id, i, n);
    assert Call(id, r, i, n)[1..] == Continues(id, i, n);
    var r' := Solo(s.db, r, i, n).1;
    assert s1.runs[id := r'] == s.runs[id := r'];
  }

  lemma {:induction false} AfterConcat(s: State, xs: seq<Step>, ys: seq<Step>)
    ensures After(s, xs + ys) == After(After(s, xs), ys)
    ensures AllCapacityRespecting(s, xs + ys)
            <==> AllCapacityRespecting(s, xs) && AllCapacityRespecting(After(s, xs), ys)
    decreases |xs|
  {
    if xs == [] {
      assert xs + ys == ys;
    } else {
      AfterConcat(Next(s, xs[0]), xs[1..], ys);
      assert (xs + ys)[1..] == xs[1..] + ys;
    }
  }

  /** One stretch of a story after another. */
  lemma Then(s: State, xs: seq<Step>, s1: State, ys: seq<Step>, s2: State)
    requires After(s, xs) == s1 && After(s1, ys) == s2
    ensures After(s, xs + ys) == s2
    ensures AllCapacityRespecting(s, xs) && AllCapacityRespecting(s1, ys) ==> AllCapacityRespecting(s, xs + ys)
  {
    AfterConcat(s, xs, ys);
  }

  // ----- a counter left too high -----

  const AGENT := DEFAULT_PROFILE.(availability := Online, maxConcurrentChats := 1)

  /** Agents 1 and 2 with these counters, and thread 7. */
  function Pair(active1: int, active2: int, last2: Option<int>, status: Status, holder: Option<AgentId>): Db {
    Db(map[1 := AGENT.(activeChats := active1), 2 := AGENT.(activeChats := active2, lastAssignedAt := last2)],
       map[7 := Conversation(status, holder, General, Some(0))])
  }

  const CLOSING := CloseUpdate(7, Some(1))

  lemma CloseReads(d: Db)
    requires CanReassign(d, 7, Some(1))
    ensures Solo(d, CloseStart(7, 9, true), CLOCK, 1) == (d, CLOSING)
  {
    SoloStep(d, CloseStart(7, 9, true), CLOCK, d, CLOSING, 0);
  }

  /** The rest of the close frees whatever slot agent 1 has counted. */
  lemma CloseFinishes(d: Db, d1: Db)
    requires IsOpen(d, 7) && d1 == ReleaseSlot(CloseConversation(d, 7), 1)
    ensures Solo(d, CLOSING, CLOCK, 2) == (d1, Done)
  {
    var closed := CloseConversation(d, 7);
    SoloStep(d, CLOSING, CLOCK, closed, Release(1), 1);
    SoloStep(closed, Release(1), CLOCK, d1, Done, 0);
  }

  lemma MovesReserved(d1: Db, d3: Db)
    requires CanReassign(d1, 7, Some(1)) && d3 == ReleaseSlot(Reassign(d1, 7, Some(1), Some(2)), 1)
    ensures Solo(d1, TransferMove(7, Some(1), Some(2)), CLOCK, 2) == (d3, Done)
  {
    var d2 := Reassign(d1, 7, Some(1), Some(2));
    SoloStep(d1, TransferMove(7, Some(1), Some(2)), CLOCK, d2, Release(1), 1);
    SoloStep(d2, Release(1), CLOCK, d3, Done, 0);
  }

  lemma MovesAfterReserve(d: Db, d1: Db, d3: Db)
    requires CanReassign(d, 7, Some(1)) && 2 in d.profiles && d1 == TakeSlot(d, 2, None, 0)
    requires d3 == ReleaseSlot(Reassign(d1, 7, Some(1), Some(2)), 1)
    ensures Solo(d, TransferReserve(7, Some(1), 2), CLOCK, 3) == (d3, Done)
  {
    MovesReserved(d1, d3);
    SoloStep(d, TransferReserve(7, Some(1), 2), CLOCK, d1, TransferMove(7, Some(1), Some(2)), 2);
  }

  lemma MovesToAgent(d: Db, d3: Db)
    requires CanReassign(d, 7, Some(1)) && 2 in d.profiles
    requires Solo(d, TransferReserve(7, Some(1), 2), CLOCK, 3) == (d3, Done)
    ensures Solo(d, TransferStart(7, Some(2)), CLOCK, 5) == (d3, Done)
  {
    SoloStep(d, TransferEnsure(7, Some(1), 2), CLOCK, d, TransferReserve(7, Some(1), 2), 3);
    SoloStep(d, TransferStart(7, Some(2)), CLOCK, d, TransferEnsure(7, Some(1), 2), 4);
  }

  lemma PairMoves(d: Db, d': Db)
    requires d == Pair(1, 0, None, Open, Some(1)) && d' == Pair(0, 1, Some(0), Open, Some(2))
    ensures Solo(d, TransferStart(7, Some(2)), CLOCK, 5) == (d', Done)
  {
    var d1 := TakeSlot(d, 2, None, 0);
    var d3 := ReleaseSlot(Reassign(d1, 7, Some(1), Some(2)), 1);
    assert d3.profiles == d'.profiles && d3.conversations == d'.conversations;
    MovesAfterReserve(d, d1, d3);
    MovesToAgent(d, d3);
  }

  lemma PairCloses(d: Db, d': Db)
    requires d == Pair(0, 1, Some(0), Open, Some(2)) && d' == Pair(0, 1, Some(0), Closed, None)
    ensures Solo(d, CLOSING, CLOCK, 2) == (d', Done)
  {
    var d1 := ReleaseSlot(CloseConversation(d, 7), 1);
    assert d1.profiles == d'.profiles && d1.conversations == d'.conversations;
    CloseFinishes(d, d1);
  }

  lemma PairConsistent()
    ensures var s := State(Pair(1, 0, None, Open, Some(1)), map[]); WellFormed(s) && Ledger(s)
  {
    var s := State(Pair(1, 0, None, Open, Some(1)), map[]);
    forall a: AgentId
      ensures LedgerAt(s, a)
    {
      CountZero(s.runs, Reserves(a));
      CountZero(s.runs, Owes(a));
      if a == 1 {
        CountOne(s.db.conversations, 7, HeldBy(1));
      } else {
        CountZero(s.db.conversations, HeldBy(a));
      }
    }
  }

  /**
   A stale close can leave a counter wrong with nothing left in flight: from a consistent
   state, agent 2 ends up counting a chat that no thread shows.
   */
  lemma StaleCloseDrift() returns (s: State, steps: seq<Step>, a: AgentId)
    ensures WellFormed(s) && Ledger(s) && Quiet(s)
    ensures Quiet(After(s, steps))
    ensures Active(After(s, steps).db, a) == 1 && OpenCount(After(s, steps).db, a) == 0
  {
    var d0, d1 := Pair(1, 0, None, Open, Some(1)), Pair(0, 1, Some(0), Open, Some(2));
    var d2 := Pair(0, 1, Some(0), Closed, None);
    var read, move := Call(0, CloseStart(7, 9, true), CLOCK, 1), Call(1, TransferStart(7, Some(2)), CLOCK, 5);
    var finish := Continues(0, CLOCK, 2);
    s, steps, a := State(d0, map[]), read + (move + finish), 2;
    PairConsistent();
    var s1 := State(d0, s.runs[0 := CLOSING]);
    CloseReads(d0);
    CallAfter(s, 0, CloseStart(7, 9, true), CLOCK, 1);
    var s2 := State(d1, s1.runs[1 := Done]);
    PairMoves(d0, d1);
    CallAfter(s1, 1, TransferStart(7, Some(2)), CLOCK, 5);
    var s3 := State(d2, s2.runs[0 := Done]);
    PairCloses(d1, d2);
    SoloAfter(s2, 0, CLOCK, 2);
    Then(s1, move, s2, finish, s3);
    Then(s, read, s1, move + finish, s3);
    CountZero(d2.conversations, HeldBy(2));
  }

  // ----- a counter left too low -----

  /** Agent 1, who takes at most one chat, with threads 7, 8 and 9. */
  function Desk3(active: int, last: Option<int>, x7: Conversation, h8: Option<AgentId>, h9: Option<AgentId>): Db {
    Db(map[1 := AGENT.(activeChats := active, lastAssignedAt := last)],
       map[7 := x7, 8 := Conversation(Open, h8, General, Some(0)), 9 := Conversation(Open, h9, General, Some(0))])
  }

  function Thread7(status: Status, holder: Option<AgentId>): Conversation {
    Conversation(status, holder, General, Some(0))
  }

  lemma MovesToQueue(d: Db, d2: Db)
    requires CanReassign(d, 7, Some(1)) && d2 == ReleaseSlot(Reassign(d, 7, Some(1), None), 1)
    ensures Solo(d, TransferStart(7, None), CLOCK, 3) == (d2, Done)
  {
    var d1 := Reassign(d, 7, Some(1), None);
    SoloStep(d, TransferStart(7, None), CLOCK, d, TransferMove(7, Some(1), None), 2);
    SoloStep(d, TransferMove(7, Some(1), None), CLOCK, d1, Release(1), 1);
    SoloStep(d1, Release(1), CLOCK, d2, Done, 0);
  }

  /** The ranking of the only agent. */
  const RANKED := Inputs([1], [], true, 0)

  /** With agent 1 free, an `autoAssign` of a waiting thread gives it to them. */
  lemma Assigned(d: Db, c: ConversationId, d1: Db, d2: Db)
    requires CanReassign(d, c, None) && 1 in d.profiles && CanTake(d, 1, Some(ProfileOf(d, 1).maxConcurrentChats))
    requires d1 == TakeSlot(d, 1, Some(ProfileOf(d, 1).maxConcurrentChats), 0) && d2 == Reassign(d1, c, None, Some(1))
    ensures Solo(d, AutoStart(c), RANKED, 5) == (d2, Done)
  {
    var limit := ProfileOf(d, 1).maxConcurrentChats;
    SoloStep(d, AutoStart(c), RANKED, d, AutoNext(c, [1]), 4);
    SoloStep(d, AutoNext(c, [1]), RANKED, d, AutoReadLimit(c, [1]), 3);
    SoloStep(d, AutoReadLimit(c, [1]), RANKED, d, AutoReserve(c, [1], limit), 2);
    SoloStep(d, AutoReserve(c, [1], limit), RANKED, d1, AutoAssign(c, 1), 1);
    SoloStep(d1, AutoAssign(c, 1), RANKED, d2, Done, 0);
  }

  lemma Desk3Consistent()
    ensures var s := State(Desk3(1, None, Thread7(Open, Some(1)), None, None), map[]);
            WellFormed(s) && Ledger(s) && Capacity(s)
  {
    var s := State(Desk3(1, None, Thread7(Open, Some(1)), None, None), map[]);
    forall a: AgentId
      ensures LedgerAt(s, a)
    {
      CountZero(s.runs, Reserves(a));
      CountZero(s.runs, Owes(a));
      if a == 1 {
        CountOne(s.db.conversations, 7, HeldBy(1));
      } else {
        CountZero(s.db.conversations, HeldBy(a));
      }
    }
  }

  lemma QueuesThread7(d: Db, d': Db)
    requires d == Desk3(1, None, Thread7(Open, Some(1)), None, None)
    requires d' == Desk3(0, None, Thread7(Open, None), None, None)
    ensures Solo(d, TransferStart(7, None), CLOCK, 3) == (d', Done)
  {
    var d2 := ReleaseSlot(Reassign(d, 7, Some(1), None), 1);
    assert d2.profiles == d'.profiles && d2.conversations == d'.conversations;
    MovesToQueue(d, d2);
  }

  lemma AssignsThread8(d: Db, d': Db)
    requires d == Desk3(0, None, Thread7(Open, None), None, None)
    requires d' == Desk3(1, Some(0), Thread7(Open, None), Some(1), None)
    ensures Solo(d, AutoStart(8), RANKED, 5) == (d', Done)
  {
    var d1 := TakeSlot(d, 1, Some(1), 0);
    var d2 := Reassign(d1, 8, None, Some(1));
    assert d2.profiles == d'.profiles && d2.conversations == d'.conversations;
    Assigned(d, 8, d1, d2);
  }

  lemma ClosesThread7(d: Db, d': Db)
    requires d == Desk3(1, Some(0), Thread7(Open, None), Some(1), None)
    requires d' == Desk3(0, Some(0), Thread7(Closed, None), Some(1), None)
    ensures Solo(d, CLOSING, CLOCK, 2) == (d', Done)
  {
    var d1 := ReleaseSlot(CloseConversation(d, 7), 1);
    assert d1.profiles == d'.profiles && d1.conversations == d'.conversations;
    CloseFinishes(d, d1);
  }

  lemma AssignsThread9(d: Db, d': Db)
    requires d == Desk3(0, Some(0), Thread7(Closed, None), Some(1), None)
    requires d' == Desk3(1, Some(0), Thread7(Closed, None), Some(1), Some(1))
    ensures Solo(d, AutoStart(9), RANKED, 5) == (d', Done)
  {
    var d1 := TakeSlot(d, 1, Some(1), 0);
    var d2 := Reassign(d1, 9, None, Some(1));
    assert d2.profiles == d'.profiles && d2.conversations == d'.conversations;
    Assigned(d, 9, d1, d2);
  }

  /** The close has read assignee 1; a transfer puts the thread back in the queue, and agent 1 is given another. */
  lemma HandsOver(s: State, d1: Db, d2: Db) returns (steps: seq<Step>)
    requires s.runs == map[] && CanReassign(s.db, 7, Some(1))
    requires Solo(s.db, TransferStart(7, None), CLOCK, 3) == (d1, Done)
    requires Solo(d1, AutoStart(8), RANKED, 5) == (d2, Done)
    ensures After(s, steps) == State(d2, s.runs[0 := CLOSING][1 := Done][2 := Done]) && AllCapacityRespecting(s, steps)
  {
    var read, move := Call(0, CloseStart(7, 9, true), CLOCK, 1), Call(1, TransferStart(7, None), CLOCK, 3);
    var assign := Call(2, AutoStart(8), RANKED, 5);
    var s1 := State(s.db, s.runs[0 := CLOSING]);
    var s2 := State(d1, s1.runs[1 := Done]);
    CloseReads(s.db);
    CallAfter(s, 0, CloseStart(7, 9, true), CLOCK, 1);
    CallAfter(s1, 1, TransferStart(7, None), CLOCK, 3);
    CallAfter(s2, 2, AutoStart(8), RANKED, 5);
    Then(s1, move, s2, assign, State(d2, s2.runs[2 := Done]));
    Then(s, read, s1, move + assign, State(d2, s2.runs[2 := Done]));
    steps := read + (move + assign);
  }

  /** The close gives back the slot that this other thread counts, and agent 1 is given a third. */
  lemma Overfill(s: State, d3: Db, d4: Db) returns (steps: seq<Step>)
    requires s.runs == map[0 := CLOSING, 1 := Done, 2 := Done]
    requires Solo(s.db, CLOSING, CLOCK, 2) == (d3, Done)
    requires Solo(d3, AutoStart(9), RANKED, 5) == (d4, Done)
    ensures After(s, steps).db == d4 && Quiet(After(s, steps)) && AllCapacityRespecting(s, steps)
  {
    var finish, assign := Continues(0, CLOCK, 2), Call(3, AutoStart(9), RANKED, 5);
    var s1 := State(d3, s.runs[0 := Done]);
    SoloAfter(s, 0, CLOCK, 2);
    CallAfter(s1, 3, AutoStart(9), RANKED, 5);
    Then(s, finish, s1, assign, State(d4, s1.runs[3 := Done]));
    steps := finish + assign;
  }

  /**
   A short close can push an agent over their maximum, although every slot was taken by
   auto-assignment: agent 1, who takes one chat at most, ends with two.
   */
  lemma ShortCloseOverfills() returns (s: State, steps: seq<Step>, a: AgentId)
    ensures WellFormed(s) && Ledger(s) && Capacity(s) && Quiet(s)
    ensures AllCapacityRespecting(s, steps) && Quiet(After(s, steps))
    ensures OpenCount(After(s, steps).db, a) == 2 && ProfileOf(After(s, steps).db, a).maxConcurrentChats == 1
  {
    s, a := State(Desk3(1, None, Thread7(Open, Some(1)), None, None), map[]), 1;
    Desk3Consistent();
    var d1 := Desk3(0, None, Thread7(Open, None), None, None);
    var d2 := Desk3(1, Some(0), Thread7(Open, None), Some(1), None);
    var d3 := Desk3(0, Some(0), Thread7(Closed, None), Some(1), None);
    var d4 := Desk3(1, Some(0), Thread7(Closed, None), Some(1), Some(1));
    QueuesThread7(s.db, d1);
    AssignsThread8(d1, d2);
    ClosesThread7(d2, d3);
    AssignsThread9(d3, d4);
    var before := HandsOver(s, d1, d2);
    var s1 := After(s, before);
    var after := Overfill(s1, d3, d4);
    steps := before + after;
    Then(s, before, s1, after, After(s1, after));
    CountIs(After(s, steps).db.conversations, HeldBy(1), {8, 9});
  }
}
