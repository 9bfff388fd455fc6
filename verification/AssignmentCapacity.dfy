/**
 The limit on an agent's chats. `reserveSlot` reads the maximum in one step and increments the
 counter under it in a later one; the counter never passes the maximum all the same. The real
 number of open chats stays below the counter only as long as no close gives back a slot too many.
 */
module AssignmentCapacity {
  import opened Desk
  import opened AssignmentRuns

  /** Slots are taken by auto-assignment only, and nobody's maximum is changed. */
  predicate CapacityRespecting(s: State, step: Step) {
    && (step.Begin? ==> !step.r.ClaimStart? && (step.r.TransferStart? ==> step.r.to.None?))
    && (step.Configure? ==> step.maxConcurrentChats == ProfileOf(s.db, step.a).maxConcurrentChats)
  }

  predicate AllCapacityRespecting(s: State, steps: seq<Step>)
    decreases |steps|
  {
    steps == [] || (CapacityRespecting(s, steps[0]) && AllCapacityRespecting(Next(s, steps[0]), steps[1..]))
  }

  /** No forced reserve ahead, and a limit read earlier is still the agent's maximum. */
  predicate WithinLimits(d: Db, r: Run) {
    && !r.ClaimStart? && !r.ClaimEnsure? && !r.ClaimReserve?
    && (r.TransferStart? ==> r.to.None?) && !r.TransferEnsure? && !r.TransferReserve?
    && (r.AutoReserve? && r.candidates != [] ==> r.limit == ProfileOf(d, r.candidates[0]).maxConcurrentChats)
  }

  ghost predicate Capacity(s: State) {
    && (forall a: AgentId :: Active(s.db, a) <= ProfileOf(s.db, a).maxConcurrentChats)
    && (forall id :: id in s.runs ==> WithinLimits(s.db, s.runs[id]))
  }

  lemma AdvanceKeepsCapacity(d: Db, r: Run, i: Inputs, a: AgentId)
    requires WithinLimits(d, r) && Active(d, a) <= ProfileOf(d, a).maxConcurrentChats
    ensures var (d', r') := Advance(d, r, i);
            && ProfileOf(d', a).maxConcurrentChats == ProfileOf(d, a).maxConcurrentChats
            && Active(d', a) <= ProfileOf(d, a).maxConcurrentChats
  {
  }

  lemma OtherStepKeepsCapacity(s: State, step: Step, a: AgentId)
    requires Capacity(s) && CapacityRespecting(s, step) && !step.Continue?
    ensures ProfileOf(Next(s, step).db, a).maxConcurrentChats == ProfileOf(s.db, a).maxConcurrentChats
    ensures Active(Next(s, step).db, a) == Active(s.db, a)
  {
  }

  lemma AdvanceKeepsLimits(d: Db, r: Run, i: Inputs)
    requires WithinLimits(d, r)
    ensures var (d', r') := Advance(d, r, i); WithinLimits(d', r')
  {
  }

  /** Nobody's maximum changes. */
  ghost predicate SameMaxima(d: Db, d': Db) {
    forall a: AgentId :: ProfileOf(d', a).maxConcurrentChats == ProfileOf(d, a).maxConcurrentChats
  }

  lemma StepKeepsMaxima(s: State, step: Step)
    requires Capacity(s) && CapacityRespecting(s, step)
    ensures SameMaxima(s.db, Next(s, step).db)
    ensures forall a: AgentId :: Active(Next(s, step).db, a) <= ProfileOf(Next(s, step).db, a).maxConcurrentChats
  {
    var s' := Next(s, step);
    forall a: AgentId
      ensures Active(s'.db, a) <= ProfileOf(s'.db, a).maxConcurrentChats
      ensures ProfileOf(s'.db, a).maxConcurrentChats == ProfileOf(s.db, a).maxConcurrentChats
    {
      assert Active(s.db, a) <= ProfileOf(s.db, a).maxConcurrentChats;
      if !step.Continue? {
        OtherStepKeepsCapacity(s, step, a);
      } else if step.id in s.runs {
        AdvanceKeepsCapacity(s.db, s.runs[step.id], step.i, a);
      }
    }
  }

  lemma StepKeepsCapacity(s: State, step: Step)
    requires Capacity(s) && CapacityRespecting(s, step)
    ensures Capacity(Next(s, step))
  {
    var s' := Next(s, step);
    StepKeepsMaxima(s, step);
    forall id | id in s'.runs
      ensures WithinLimits(s'.db, s'.runs[id])
    {
      if id in s.runs && s'.runs[id] == s.runs[id] {
        LimitsKept(s.db, s'.db, s.runs[id]);
      } else if step.Continue? {
        AdvanceKeepsLimits(s.db, s.runs[id], step.i);
      }
    }
  }

  lemma LimitsKept(d: Db, d': Db, r: Run)
    requires WithinLimits(d, r) && SameMaxima(d, d')
    ensures WithinLimits(d', r)
  {
  }

  /** No counter passes its agent's maximum, in any interleaving, stale closes included. */
  lemma {:induction false} MaximumHolds(s: State, steps: seq<Step>)
    requires Capacity(s) && AllCapacityRespecting(s, steps)
    ensures Capacity(After(s, steps))
    decreases |steps|
  {
    if steps != [] {
      StepKeepsCapacity(s, steps[0]);
      MaximumHolds(Next(s, steps[0]), steps[1..]);
    }
  }

  lemma {:induction false} SolventAfter(s: State, steps: seq<Step>)
    requires SolventThroughout(s, steps)
    ensures Solvent(After(s, steps))
    decreases |steps|
  {
    if steps != [] {
      SolventAfter(Next(s, steps[0]), steps[1..]);
    }
  }

  /** Unless a close was short, no agent has more open chats than their maximum. */
  lemma CapacityHolds(s: State, steps: seq<Step>, a: AgentId)
    requires WellFormed(s) && Solvent(s) && NoShortClose(s, steps)
    requires Capacity(s) && AllCapacityRespecting(s, steps)
    ensures var d := After(s, steps).db;
            OpenCount(d, a) <= Active(d, a) <= ProfileOf(d, a).maxConcurrentChats
  {
    MaximumHolds(s, steps);
    SolventThroughoutIff(s, steps);
    SolventAfter(s, steps);
    assert Slack(After(s, steps), a) >= 0;
  }
}
