/**
 Routing under concurrency. Any number of servers run `autoAssign`, `claim`, `transfer`,
 `close` and `requeueAgentChats` at once; every database operation is one atomic step and
 every `await` is a point where other runs may act. A slot is reserved in one step and the
 conversation assigned in a later one, with no transaction around them, so an agent's
 counter is compared with a ledger that also counts the runs in between.
 */
module AssignmentRuns {
  import opened Ids
  import opened Options
  import opened Counting
  import opened Desk

  /** Where one call stands: the constructor names the database operation it does next. */
  datatype Run =
    // autoAssign
    | AutoStart(c: ConversationId)
    | AutoNext(c: ConversationId, candidates: seq<AgentId>)
    | AutoReadLimit(c: ConversationId, candidates: seq<AgentId>)
    | AutoReserve(c: ConversationId, candidates: seq<AgentId>, limit: int)
    | AutoAssign(c: ConversationId, a: AgentId)
    // claim
    | ClaimStart(c: ConversationId, a: AgentId, isAgent: bool)
    | ClaimEnsure(c: ConversationId, a: AgentId)
    | ClaimReserve(c: ConversationId, a: AgentId)
    | ClaimAssign(c: ConversationId, a: AgentId)
    // transfer
    | TransferStart(c: ConversationId, to: Option<AgentId>)
    | TransferEnsure(c: ConversationId, from: Option<AgentId>, a: AgentId)
    | TransferReserve(c: ConversationId, from: Option<AgentId>, a: AgentId)
    | TransferMove(c: ConversationId, from: Option<AgentId>, to: Option<AgentId>)
    // close
    | CloseStart(c: ConversationId, actor: AgentId, isAdmin: bool)
    | CloseUpdate(c: ConversationId, assignee: Option<AgentId>)
    // requeueAgentChats
    | RequeueStart(a: AgentId)
    | RequeueNext(a: AgentId, listed: seq<ConversationId>)
    | RequeueRelease(a: AgentId, listed: seq<ConversationId>)
    // the last operation of several calls
    | Release(a: AgentId)
    | Done

  /** The run has counted a chat on this agent that no conversation shows yet. */
  function Reserves(a: AgentId): Run -> bool {
    (r: Run) =>
      || (r.AutoAssign? && r.a == a)
      || (r.ClaimAssign? && r.a == a)
      || (r.TransferMove? && r.to == Some(a))
  }

  /** The run still owes this agent a release. */
  function Owes(a: AgentId): Run -> bool {
    (r: Run) => (r.Release? && r.a == a) || (r.RequeueRelease? && r.a == a)
  }

  /**
   What a step takes from outside the modelled records: the agents `candidatesFor` ranked,
   the threads `listOpenAssignedTo` returned, the answer of `isAgent`, the clock.
   Nothing is assumed about any of them.
   */
  datatype Inputs = Inputs(candidates: seq<AgentId>, listed: seq<ConversationId>, isAgent: bool, now: int)

  function ReleaseAfter(a: Option<AgentId>): Run {
    if a.Some? then Release(a.value) else Done
  }

  /** One atomic step of one run. */
  function Advance(d: Db, r: Run, i: Inputs): (Db, Run) {
    match r
    case AutoStart(c) =>
      if !CanReassign(d, c, None) then (d, Done) else (d, AutoNext(c, i.candidates))
    case AutoNext(c, candidates) =>
      if candidates == [] then (d, Done) else (EnsureProfile(d, candidates[0]), AutoReadLimit(c, candidates))
    case AutoReadLimit(c, candidates) =>
      if candidates == [] then (d, Done)
      else (d, AutoReserve(c, candidates, ProfileOf(d, candidates[0]).maxConcurrentChats))
    case AutoReserve(c, candidates, limit) =>
      if candidates == [] then (d, Done)
      else if CanTake(d, candidates[0], Some(limit)) then
        (TakeSlot(d, candidates[0], Some(limit), i.now), AutoAssign(c, candidates[0]))
      else
        (d, AutoNext(c, candidates[1..]))
    case AutoAssign(c, a) =>
      (Reassign(d, c, None, Some(a)), if CanReassign(d, c, None) then Done else Release(a))

    case ClaimStart(c, a, isAgent) =>
      if !isAgent || !CanReassign(d, c, None) then (d, Done) else (d, ClaimEnsure(c, a))
    case ClaimEnsure(c, a) => (EnsureProfile(d, a), ClaimReserve(c, a))
    case ClaimReserve(c, a) => (TakeSlot(d, a, None, i.now), ClaimAssign(c, a))
    case ClaimAssign(c, a) =>
      (Reassign(d, c, None, Some(a)), if CanReassign(d, c, None) then Done else Release(a))

    case TransferStart(c, to) =>
      if !IsOpen(d, c) then (d, Done)
      else
        var from := d.conversations[c].assignedAgentId;
        if from == to || (to.Some? && !i.isAgent) then (d, Done)
        else if to.Some? then (d, TransferEnsure(c, from, to.value))
        else (d, TransferMove(c, from, None))
    case TransferEnsure(c, from, a) => (EnsureProfile(d, a), TransferReserve(c, from, a))
    case TransferReserve(c, from, a) => (TakeSlot(d, a, None, i.now), TransferMove(c, from, Some(a)))
    case TransferMove(c, from, to) =>
      (Reassign(d, c, from, to), if CanReassign(d, c, from) then ReleaseAfter(from) else ReleaseAfter(to))

    case CloseStart(c, actor, isAdmin) =>
      if !IsOpen(d, c) then (d, Done)
      else
        var assignee := d.conversations[c].assignedAgentId;
        if !isAdmin && assignee != Some(actor) then (d, Done) else (d, CloseUpdate(c, assignee))
    case CloseUpdate(c, assignee) =>
      // The release goes to the assignee read by CloseStart, not to the one just replaced.
      (CloseConversation(d, c), if IsOpen(d, c) then ReleaseAfter(assignee) else Done)

    case RequeueStart(a) => (d, RequeueNext(a, i.listed))
    case RequeueNext(a, listed) =>
      if listed == [] then (d, Done)
      else
        (Reassign(d, listed[0], Some(a), None),
         if CanReassign(d, listed[0], Some(a)) then RequeueRelease(a, listed[1..]) else RequeueNext(a, listed[1..]))
    case RequeueRelease(a, listed) => (ReleaseSlot(d, a), RequeueNext(a, listed))

    case Release(a) => (ReleaseSlot(d, a), Done)
    case Done => (d, Done)
  }

  datatype State = State(db: Db, runs: map<RunId, Run>)

  datatype Step =
    | Begin(id: RunId, r: Run)
    | Continue(id: RunId, i: Inputs)
    // writes by other parts of the program
    | Configure(a: AgentId, availability: Availability, skills: set<Topic>, maxConcurrentChats: int)
    | NewThread(c: ConversationId)
    | Touch(c: ConversationId, topic: Topic, lastMessageAt: Option<int>)
    | Reopen(c: ConversationId)

  predicate IsEntry(r: Run) {
    r.AutoStart? || r.ClaimStart? || r.TransferStart? || r.CloseStart? || r.RequeueStart?
  }

  /** A step that does not apply in this state leaves it as it is. */
  function Next(s: State, step: Step): State {
    match step
    case Begin(id, r) =>
      if IsEntry(r) && id !in s.runs then s.(runs := s.runs[id := r]) else s
    case Continue(id, i) =>
      if id !in s.runs then s
      else
        var (db, r) := Advance(s.db, s.runs[id], i);
        State(db, s.runs[id := r])
    case Configure(a, availability, skills, most) =>
      var p := ProfileOf(s.db, a).(availability := availability, skills := skills, maxConcurrentChats := most);
      s.(db := s.db.(profiles := s.db.profiles[a := p]))
    case NewThread(c) =>
      if c in s.db.conversations then s
      else s.(db := s.db.(conversations := s.db.conversations[c := Conversation(Open, None, General, None)]))
    case Touch(c, topic, at) =>
      if c !in s.db.conversations then s
      else
        var x := s.db.conversations[c].(topic := topic, lastMessageAt := at);
        s.(db := s.db.(conversations := s.db.conversations[c := x]))
    case Reopen(c) => s.(db := ReopenIfClosed(s.db, c))
  }

  function After(s: State, steps: seq<Step>): State
    decreases |steps|
  {
    if steps == [] then s else After(Next(s, steps[0]), steps[1..])
  }

  // ----- the ledger -----

  ghost predicate LedgerAt(s: State, a: AgentId) {
    Active(s.db, a) == OpenCount(s.db, a) + Count(s.runs, Reserves(a)) + Count(s.runs, Owes(a))
  }

  /** Every counter is the agent's open chats, plus runs between reserve and assign, plus runs that owe a release. */
  ghost predicate Ledger(s: State) {
    forall a: AgentId :: LedgerAt(s, a)
  }

  /** A forced reserve can rely on the profile it made sure of. */
  predicate ProfileReady(d: Db, r: Run) {
    (r.ClaimReserve? || r.TransferReserve?) ==> r.a in d.profiles
  }

  ghost predicate WellFormed(s: State) {
    ClosedUnassigned(s.db) && forall id :: id in s.runs ==> ProfileReady(s.db, s.runs[id])
  }

  /** A close whose thread changed hands between its two steps. */
  predicate StaleClose(s: State, step: Step) {
    && step.Continue? && step.id in s.runs
    && var r := s.runs[step.id];
    && r.CloseUpdate? && IsOpen(s.db, r.c)
    && s.db.conversations[r.c].assignedAgentId != r.assignee
  }

  predicate NoStaleClose(s: State, steps: seq<Step>)
    decreases |steps|
  {
    steps == [] || (!StaleClose(s, steps[0]) && NoStaleClose(Next(s, steps[0]), steps[1..]))
  }

  /** One run's contribution to the difference between an agent's counter and the ledger. */
  ghost function Gap(d: Db, r: Run, a: AgentId): int {
    Active(d, a) - OpenCount(d, a) - (if Reserves(a)(r) then 1 else 0) - (if Owes(a)(r) then 1 else 0)
  }

  lemma ReassignCounts(d: Db, c: ConversationId, from: Option<AgentId>, to: Option<AgentId>, a: AgentId)
    requires CanReassign(d, c, from)
    ensures OpenCount(Reassign(d, c, from, to), a) + (if from == Some(a) then 1 else 0) ==
            OpenCount(d, a) + (if to == Some(a) then 1 else 0)
  {
    CountUpdate(d.conversations, c, d.conversations[c].(assignedAgentId := to), HeldBy(a));
  }

  lemma CloseCounts(d: Db, c: ConversationId, a: AgentId)
    requires IsOpen(d, c)
    ensures OpenCount(CloseConversation(d, c), a) + (if d.conversations[c].assignedAgentId == Some(a) then 1 else 0) ==
            OpenCount(d, a)
  {
    CountUpdate(d.conversations, c, d.conversations[c].(status := Closed, assignedAgentId := None), HeldBy(a));
  }

  /** What a close does to the gap: what the thread's holder gives up, less what the assignee read earlier is owed. */
  function CloseSkew(d: Db, r: Run, a: AgentId): int {
    if r.CloseUpdate? && IsOpen(d, r.c) then
      (if d.conversations[r.c].assignedAgentId == Some(a) then 1 else 0) - (if r.assignee == Some(a) then 1 else 0)
    else
      0
  }

  lemma CountersOnlyGap(d: Db, r: Run, i: Inputs, a: AgentId)
    requires r.AutoReserve? || r.ClaimReserve? || r.TransferReserve? || r.Release? || r.RequeueRelease?
    requires ProfileReady(d, r) && (Owes(a)(r) ==> Active(d, a) > 0)
    ensures Gap(Advance(d, r, i).0, Advance(d, r, i).1, a) == Gap(d, r, a)
  {
    assert Advance(d, r, i).0.conversations == d.conversations;
  }

  lemma AssignGap(d: Db, r: Run, i: Inputs, a: AgentId)
    requires r.AutoAssign? || r.ClaimAssign?
    ensures Gap(Advance(d, r, i).0, Advance(d, r, i).1, a) == Gap(d, r, a)
  {
    if CanReassign(d, r.c, None) { ReassignCounts(d, r.c, None, Some(r.a), a); }
  }

  lemma ThreadGap(d: Db, r: Run, i: Inputs, a: AgentId)
    requires r.AutoAssign? || r.ClaimAssign? || r.TransferMove? || r.CloseUpdate? || r.RequeueNext?
    ensures Gap(Advance(d, r, i).0, Advance(d, r, i).1, a) == Gap(d, r, a) + CloseSkew(d, r, a)
  {
    assert Advance(d, r, i).0.profiles == d.profiles;
    match r
    case AutoAssign(_, _) => AssignGap(d, r, i, a);
    case ClaimAssign(_, _) => AssignGap(d, r, i, a);
    case TransferMove(c, from, to) =>
      if CanReassign(d, c, from) { ReassignCounts(d, c, from, to, a); }
    case CloseUpdate(c, assignee) =>
      if IsOpen(d, c) { CloseCounts(d, c, a); }
    case RequeueNext(b, listed) =>
      if listed != [] && CanReassign(d, listed[0], Some(b)) { ReassignCounts(d, listed[0], Some(b), None, a); }
  }

  /** A step of a run moves the gap only when it is a close of a thread that changed hands. */
  lemma AdvanceGap(d: Db, r: Run, i: Inputs, a: AgentId)
    requires ProfileReady(d, r) && (Owes(a)(r) ==> Active(d, a) > 0)
    ensures Gap(Advance(d, r, i).0, Advance(d, r, i).1, a) == Gap(d, r, a) + CloseSkew(d, r, a)
  {
    if r.AutoReserve? || r.ClaimReserve? || r.TransferReserve? || r.Release? || r.RequeueRelease? {
      CountersOnlyGap(d, r, i, a);
    } else if r.AutoAssign? || r.ClaimAssign? || r.TransferMove? || r.CloseUpdate? || r.RequeueNext? {
      ThreadGap(d, r, i, a);
    } else {
      assert Advance(d, r, i).0.conversations == d.conversations;
    }
  }

  /** In a consistent state a pending release always finds a positive counter, so its guard swallows nothing. */
  lemma ReleaseNeverSwallowed(s: State, id: RunId, a: AgentId)
    requires Ledger(s) && id in s.runs && Owes(a)(s.runs[id])
    ensures Active(s.db, a) > 0
    ensures Active(ReleaseSlot(s.db, a), a) == Active(s.db, a) - 1
  {
    assert LedgerAt(s, a);
    CountPositive(s.runs, id, Owes(a));
  }

  /** What an agent's counter shows beyond the ledger; negative when it shows too little. */
  ghost function Slack(s: State, a: AgentId): int {
    Active(s.db, a) - OpenCount(s.db, a) - Count(s.runs, Reserves(a)) - Count(s.runs, Owes(a))
  }

  /** In any state where the release is not swallowed, a step of a run moves the slack like it moves the gap. */
  lemma ContinueSlack(s: State, id: RunId, i: Inputs, a: AgentId)
    requires WellFormed(s) && id in s.runs && (Owes(a)(s.runs[id]) ==> Active(s.db, a) > 0)
    ensures Slack(Next(s, Continue(id, i)), a) == Slack(s, a) + CloseSkew(s.db, s.runs[id], a)
  {
    var r := s.runs[id];
    var (d', r') := Advance(s.db, r, i);
    AdvanceGap(s.db, r, i, a);
    CountUpdate(s.runs, id, r', Reserves(a));
    CountUpdate(s.runs, id, r', Owes(a));
  }

  lemma ContinueLedger(s: State, id: RunId, i: Inputs, a: AgentId)
    requires WellFormed(s) && Ledger(s) && id in s.runs
    ensures LedgerAt(Next(s, Continue(id, i)), a) <==> CloseSkew(s.db, s.runs[id], a) == 0
  {
    if Owes(a)(s.runs[id]) { ReleaseNeverSwallowed(s, id, a); }
    assert LedgerAt(s, a);
    ContinueSlack(s, id, i, a);
  }

  /** Whatever is not a step of a run moves no slack. */
  lemma OtherStepSlack(s: State, step: Step, a: AgentId)
    requires WellFormed(s) && !step.Continue?
    ensures Slack(Next(s, step), a) == Slack(s, a)
  {
    match step
    case Begin(id, r) =>
      CountUpdate(s.runs, id, r, Reserves(a));
      CountUpdate(s.runs, id, r, Owes(a));
    case NewThread(c) =>
      CountUpdate(s.db.conversations, c, Conversation(Open, None, General, None), HeldBy(a));
    case Touch(c, topic, at) =>
      if c in s.db.conversations {
        CountUpdate(s.db.conversations, c, s.db.conversations[c].(topic := topic, lastMessageAt := at), HeldBy(a));
      }
    case Reopen(c) =>
      if c in s.db.conversations {
        CountUpdate(s.db.conversations, c, s.db.conversations[c].(status := Open), HeldBy(a));
      }
    case _ =>
  }

  lemma OtherStepLedger(s: State, step: Step, a: AgentId)
    requires WellFormed(s) && Ledger(s) && !step.Continue?
    ensures LedgerAt(Next(s, step), a)
  {
    assert LedgerAt(s, a);
    OtherStepSlack(s, step, a);
  }

  lemma StepWellFormed(s: State, step: Step)
    requires WellFormed(s)
    ensures WellFormed(Next(s, step))
  {
  }

  /**
   The ledger survives a step if and only if that step is not a close of a thread whose
   assignee changed after the close read it.
   */
  lemma StepKeepsLedger(s: State, step: Step)
    requires WellFormed(s) && Ledger(s)
    ensures WellFormed(Next(s, step))
    ensures Ledger(Next(s, step)) <==> !StaleClose(s, step)
  {
    StepWellFormed(s, step);
    if step.Continue? && step.id in s.runs {
      forall a: AgentId { ContinueLedger(s, step.id, step.i, a); }
      if StaleClose(s, step) {
        var r := s.runs[step.id];
        var holder := s.db.conversations[r.c].assignedAgentId;
        assert !LedgerAt(Next(s, step), if holder.Some? then holder.value else r.assignee.value);
      }
    } else if !step.Continue? {
      forall a: AgentId { OtherStepLedger(s, step, a); }
    }
  }

  /** The ledger over whole interleavings. */
  lemma {:induction false} LedgerHolds(s: State, steps: seq<Step>)
    requires WellFormed(s) && Ledger(s) && NoStaleClose(s, steps)
    ensures WellFormed(After(s, steps)) && Ledger(After(s, steps))
    decreases |steps|
  {
    if steps != [] {
      StepKeepsLedger(s, steps[0]);
      LedgerHolds(Next(s, steps[0]), steps[1..]);
    }
  }

  /** The ledger holds at the start and after every step. */
  ghost predicate LedgerThroughout(s: State, steps: seq<Step>)
    decreases |steps|
  {
    Ledger(s) && (steps == [] || LedgerThroughout(Next(s, steps[0]), steps[1..]))
  }

  /** Stale closes are the only thing that ever breaks the ledger. */
  lemma {:induction false} LedgerThroughoutIff(s: State, steps: seq<Step>)
    requires WellFormed(s) && Ledger(s)
    ensures LedgerThroughout(s, steps) <==> NoStaleClose(s, steps)
    decreases |steps|
  {
    if steps != [] {
      var s1 := Next(s, steps[0]);
      StepKeepsLedger(s, steps[0]);
      if Ledger(s1) {
        LedgerThroughoutIff(s1, steps[1..]);
      }
    }
  }

  ghost predicate Quiet(s: State) {
    forall id :: id in s.runs ==> s.runs[id].Done?
  }

  /** Once nothing is in flight, every counter is the real number of open chats. */
  lemma CountersExactWhenQuiet(s: State, steps: seq<Step>, a: AgentId)
    requires WellFormed(s) && Ledger(s) && NoStaleClose(s, steps)
    requires Quiet(After(s, steps))
    ensures Active(After(s, steps).db, a) == OpenCount(After(s, steps).db, a)
  {
    LedgerHolds(s, steps);
    var s' := After(s, steps);
    assert LedgerAt(s', a);
    CountZero(s'.runs, Reserves(a));
    CountZero(s'.runs, Owes(a));
  }

  ghost predicate NonNegative(d: Db) {
    forall a :: a in d.profiles ==> d.profiles[a].activeChats >= 0
  }

  /** Whatever the interleaving, stale closes included, no counter goes below zero. */
  lemma {:induction false} CountersNeverNegative(s: State, steps: seq<Step>)
    requires NonNegative(s.db)
    ensures NonNegative(After(s, steps).db)
    decreases |steps|
  {
    if steps != [] {
      CountersNeverNegative(Next(s, steps[0]), steps[1..]);
    }
  }

  // ----- what survives stale closes -----

  /** No counter shows less than its ledger, so pending releases are still never swallowed. */
  ghost predicate Solvent(s: State) {
    forall a: AgentId :: Slack(s, a) >= 0
  }

  /** A stale close that gives back a slot of an agent who no longer holds the thread and has none to spare. */
  ghost predicate ShortClose(s: State, step: Step) {
    && StaleClose(s, step)
    && var assignee := s.runs[step.id].assignee;
    && assignee.Some? && Slack(s, assignee.value) == 0
  }

  lemma ContinueSolvent(s: State, id: RunId, i: Inputs, a: AgentId)
    requires WellFormed(s) && Solvent(s) && id in s.runs
    ensures Slack(Next(s, Continue(id, i)), a) == Slack(s, a) + CloseSkew(s.db, s.runs[id], a)
  {
    if Owes(a)(s.runs[id]) {
      CountPositive(s.runs, id, Owes(a));
      assert Slack(s, a) >= 0;
    }
    ContinueSlack(s, id, i, a);
  }

  /** A step keeps every counter at or above its ledger if and only if it is not a short close. */
  lemma StepKeepsSolvent(s: State, step: Step)
    requires WellFormed(s) && Solvent(s)
    ensures Solvent(Next(s, step)) <==> !ShortClose(s, step)
  {
    if step.Continue? && step.id in s.runs {
      forall a: AgentId
        ensures Slack(Next(s, step), a) == Slack(s, a) + CloseSkew(s.db, s.runs[step.id], a) && Slack(s, a) >= 0
      {
        ContinueSolvent(s, step.id, step.i, a);
      }
      if ShortClose(s, step) {
        assert Slack(Next(s, step), s.runs[step.id].assignee.value) < 0;
      }
    } else if !step.Continue? {
      forall a: AgentId
        ensures Slack(Next(s, step), a) >= 0
      {
        OtherStepSlack(s, step, a);
        assert Slack(s, a) >= 0;
      }
    }
  }

  ghost predicate NoShortClose(s: State, steps: seq<Step>)
    decreases |steps|
  {
    steps == [] || (!ShortClose(s, steps[0]) && NoShortClose(Next(s, steps[0]), steps[1..]))
  }

  ghost predicate SolventThroughout(s: State, steps: seq<Step>)
    decreases |steps|
  {
    Solvent(s) && (steps == [] || SolventThroughout(Next(s, steps[0]), steps[1..]))
  }

  /** Along a whole interleaving no counter falls below its ledger if and only if no close is short. */
  lemma {:induction false} SolventThroughoutIff(s: State, steps: seq<Step>)
    requires WellFormed(s) && Solvent(s)
    ensures SolventThroughout(s, steps) <==> NoShortClose(s, steps)
    decreases |steps|
  {
    if steps != [] {
      var s1 := Next(s, steps[0]);
      StepKeepsSolvent(s, steps[0]);
      StepWellFormed(s, steps[0]);
      if Solvent(s1) {
        SolventThroughoutIff(s1, steps[1..]);
      }
    }
  }

  // ----- the whole account -----

  /** The run's next step is a release that finds the agent's counter at zero and so takes nothing off it. */
  predicate SwallowedRelease(s: State, step: Step, a: AgentId) {
    step.Continue? && step.id in s.runs && Owes(a)(s.runs[step.id]) && Active(s.db, a) <= 0
  }

  /** What a step does to an agent's slack. */
  function SlackMove(s: State, step: Step, a: AgentId): int {
    if step.Continue? && step.id in s.runs then
      CloseSkew(s.db, s.runs[step.id], a) + if SwallowedRelease(s, step, a) then 1 else 0
    else
      0
  }

  function SlackMoves(s: State, steps: seq<Step>, a: AgentId): int
    decreases |steps|
  {
    if steps == [] then 0 else SlackMove(s, steps[0], a) + SlackMoves(Next(s, steps[0]), steps[1..], a)
  }

  lemma SwallowedSlack(s: State, id: RunId, i: Inputs, a: AgentId)
    requires SwallowedRelease(s, Continue(id, i), a)
    ensures Slack(Next(s, Continue(id, i)), a) == Slack(s, a) + 1
  {
    var r := s.runs[id];
    var (d', r') := Advance(s.db, r, i);
    assert d' == s.db;
    CountUpdate(s.runs, id, r', Reserves(a));
    CountUpdate(s.runs, id, r', Owes(a));
  }

  lemma StepSlack(s: State, step: Step, a: AgentId)
    requires WellFormed(s)
    ensures Slack(Next(s, step), a) == Slack(s, a) + SlackMove(s, step, a)
  {
    if !step.Continue? {
      OtherStepSlack(s, step, a);
    } else if SwallowedRelease(s, step, a) {
      SwallowedSlack(s, step.id, step.i, a);
    } else if step.id in s.runs {
      ContinueSlack(s, step.id, step.i, a);
    }
  }

  /**
   In every interleaving, from every state, an agent's counter ends as far from its ledger as it
   began, but for what closes gave back to or kept from them wrongly and the releases that found zero.
   */
  lemma {:induction false} SlackAccount(s: State, steps: seq<Step>, a: AgentId)
    requires WellFormed(s)
    ensures Slack(After(s, steps), a) == Slack(s, a) + SlackMoves(s, steps, a)
    decreases |steps|
  {
    if steps != [] {
      StepSlack(s, steps[0], a);
      StepWellFormed(s, steps[0]);
      SlackAccount(Next(s, steps[0]), steps[1..], a);
    }
  }

  /** Hence the drift left when nothing is in flight any more. */
  lemma DriftWhenQuiet(s: State, steps: seq<Step>, a: AgentId)
    requires WellFormed(s) && Ledger(s) && Quiet(After(s, steps))
    ensures var d := After(s, steps).db;
            Active(d, a) - OpenCount(d, a) == SlackMoves(s, steps, a)
  {
    assert LedgerAt(s, a);
    SlackAccount(s, steps, a);
    CountZero(After(s, steps).runs, Reserves(a));
    CountZero(After(s, steps).runs, Owes(a));
  }
}
