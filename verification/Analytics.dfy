/** The dashboard's message counts per calendar day, by way of 15-minute slots, in any time zone. */
module Analytics {
  import opened Ordering

  const SLOT_MS := 15 * 60 * 1000
  const DAY_MS := 24 * 60 * 60 * 1000

  // ----- counting directly -----

  /** How many of the times satisfy `p`. */
  function Tally(ts: seq<int>, p: int -> bool): nat {
    if ts == [] then 0 else Tally(ts[1..], p) + if p(ts[0]) then 1 else 0
  }

  lemma {:induction false} TallyAppend(ts: seq<int>, t: int, p: int -> bool)
    ensures Tally(ts + [t], p) == Tally(ts, p) + if p(t) then 1 else 0
  {
    if ts == [] {
      assert [t][1..] == [];
    } else {
      assert (ts + [t])[1..] == ts[1..] + [t];
      TallyAppend(ts[1..], t, p);
    }
  }

  lemma {:induction false} TallySame(ts: seq<int>, p: int -> bool, q: int -> bool)
    requires forall i :: 0 <= i < |ts| ==> p(ts[i]) == q(ts[i])
    ensures Tally(ts, p) == Tally(ts, q)
  {
    if ts != [] {
      TallySame(ts[1..], p, q);
    }
  }

  lemma {:induction false} TallyNone(ts: seq<int>, p: int -> bool)
    requires forall i :: 0 <= i < |ts| ==> !p(ts[i])
    ensures Tally(ts, p) == 0
  {
    if ts != [] {
      TallyNone(ts[1..], p);
    }
  }

  /** Counts of predicates that exclude each other add up. */
  lemma {:induction false} TallyAdd(ts: seq<int>, p: int -> bool, q: int -> bool, both: int -> bool)
    requires forall i :: 0 <= i < |ts| ==> both(ts[i]) == (p(ts[i]) || q(ts[i])) && !(p(ts[i]) && q(ts[i]))
    ensures Tally(ts, both) == Tally(ts, p) + Tally(ts, q)
  {
    if ts != [] {
      TallyAdd(ts[1..], p, q, both);
    }
  }

  // ----- counting by slots -----

  function SlotOf(t: int): int {
    t / SLOT_MS
  }

  function Get(m: map<int, nat>, k: int): nat {
    if k in m then m[k] else 0
  }

  /** From `since` on, an instant falls on the day on which its slot starts. */
  ghost predicate SlotsWithinDays(since: int, dayOf: int -> int) {
    forall t :: t >= since ==> dayOf(t) == dayOf(SlotOf(t) * SLOT_MS)
  }

  ghost function InSlot(since: int, slot: int): int -> bool {
    t => t >= since && SlotOf(t) == slot
  }

  /** Counted so far: the slot is done, and its start falls on the day. */
  ghost function Counted(since: int, done: seq<int>, day: int, dayOf: int -> int): int -> bool {
    t => t >= since && SlotOf(t) in done && dayOf(SlotOf(t) * SLOT_MS) == day
  }

  ghost function OnDay(since: int, day: int, dayOf: int -> int): int -> bool {
    t => t >= since && dayOf(t) == day
  }

  ghost function OnSlotDay(since: int, day: int, dayOf: int -> int): int -> bool {
    t => t >= since && dayOf(SlotOf(t) * SLOT_MS) == day
  }

  lemma CountOneMore(ts: seq<int>, since: int, done: seq<int>, slot: int, day: int, dayOf: int -> int)
    requires slot !in done
    ensures Tally(ts, Counted(since, done + [slot], day, dayOf))
            == Tally(ts, Counted(since, done, day, dayOf))
               + if dayOf(slot * SLOT_MS) == day then Tally(ts, InSlot(since, slot)) else 0
  {
    if dayOf(slot * SLOT_MS) == day {
      TallyAdd(ts, Counted(since, done, day, dayOf), InSlot(since, slot), Counted(since, done + [slot], day, dayOf));
    } else {
      TallySame(ts, Counted(since, done, day, dayOf), Counted(since, done + [slot], day, dayOf));
    }
  }

  method CountPerSlot(createdAt: seq<int>, since: int) returns (perSlot: map<int, nat>)
    ensures forall slot :: Get(perSlot, slot) == Tally(createdAt, InSlot(since, slot))
    ensures forall i :: 0 <= i < |createdAt| && createdAt[i] >= since ==> SlotOf(createdAt[i]) in perSlot
  {
    perSlot := map[];
    for k := 0 to |createdAt|
      invariant forall slot :: Get(perSlot, slot) == Tally(createdAt[..k], InSlot(since, slot))
      invariant forall i :: 0 <= i < k && createdAt[i] >= since ==> SlotOf(createdAt[i]) in perSlot
    {
      var t := createdAt[k];
      assert createdAt[..k + 1] == createdAt[..k] + [t];
      ghost var before := perSlot;
      if t >= since {
        perSlot := perSlot[SlotOf(t) := Get(perSlot, SlotOf(t)) + 1];
      }
      forall slot
        ensures Get(perSlot, slot) == Tally(createdAt[..k + 1], InSlot(since, slot))
      {
        TallyAppend(createdAt[..k], t, InSlot(since, slot));
      }
    }
    assert createdAt[..|createdAt|] == createdAt;
  }

  /** The day counts hold the messages of the slots that are done. */
  ghost predicate Holds(perDay: map<int, nat>, createdAt: seq<int>, since: int, done: seq<int>, dayOf: int -> int) {
    forall day :: Get(perDay, day) == Tally(createdAt, Counted(since, done, day, dayOf))
  }

  lemma HoldsNothing(createdAt: seq<int>, since: int, dayOf: int -> int)
    ensures Holds(map[], createdAt, since, [], dayOf)
  {
    forall day
      ensures Get(map[], day) == Tally(createdAt, Counted(since, [], day, dayOf))
    {
      TallyNone(createdAt, Counted(since, [], day, dayOf));
    }
  }

  lemma HoldsOneMore(perDay: map<int, nat>, createdAt: seq<int>, since: int, done: seq<int>,
                     slot: int, n: nat, dayOf: int -> int)
    requires Holds(perDay, createdAt, since, done, dayOf)
    requires slot !in done && n == Tally(createdAt, InSlot(since, slot))
    ensures var day := dayOf(slot * SLOT_MS);
            Holds(perDay[day := Get(perDay, day) + n], createdAt, since, done + [slot], dayOf)
  {
    var day := dayOf(slot * SLOT_MS);
    forall d
      ensures Get(perDay[day := Get(perDay, day) + n], d) == Tally(createdAt, Counted(since, done + [slot], d, dayOf))
    {
      CountOneMore(createdAt, since, done, slot, d, dayOf);
    }
  }

  lemma HoldsAll(perDay: map<int, nat>, createdAt: seq<int>, since: int, done: seq<int>, dayOf: int -> int)
    requires Holds(perDay, createdAt, since, done, dayOf)
    requires forall i :: 0 <= i < |createdAt| && createdAt[i] >= since ==> SlotOf(createdAt[i]) in done
    ensures forall day :: Get(perDay, day) == Tally(createdAt, OnSlotDay(since, day, dayOf))
  {
    forall day
      ensures Get(perDay, day) == Tally(createdAt, OnSlotDay(since, day, dayOf))
    {
      TallySame(createdAt, Counted(since, done, day, dayOf), OnSlotDay(since, day, dayOf));
    }
  }

  /** One date computation per slot: each message is counted on the day its slot starts. */
  method CountMessagesPerDay(createdAt: seq<int>, since: int, dayOf: int -> int) returns (perDay: map<int, nat>)
    ensures forall day :: Get(perDay, day) == Tally(createdAt, OnSlotDay(since, day, dayOf))
  {
    var perSlot := CountPerSlot(createdAt, since);
    var slots := ToSeq(perSlot.Keys);
    perDay := map[];
    HoldsNothing(createdAt, since, dayOf);
    assert slots[..0] == [];
    for k := 0 to |slots|
      invariant Holds(perDay, createdAt, since, slots[..k], dayOf)
    {
      var slot := slots[k];
      assert slot in slots;
      assert slots[..k + 1] == slots[..k] + [slot];
      HoldsOneMore(perDay, createdAt, since, slots[..k], slot, perSlot[slot], dayOf);
      var day := dayOf(slot * SLOT_MS);
      perDay := perDay[day := Get(perDay, day) + perSlot[slot]];
    }
    assert slots[..|slots|] == slots;
    HoldsAll(perDay, createdAt, since, slots, dayOf);
  }

  lemma TallyOne(t: int, p: int -> bool)
    ensures Tally([t], p) == if p(t) then 1 else 0
  {
    assert [t][1..] == [];
    assert Tally([t][1..], p) == 0;
  }

  /** A message that its slot puts on another day is counted on one of the two only. */
  lemma StraddlerMiscounted(since: int, t: int, dayOf: int -> int)
    requires t >= since && dayOf(t) != dayOf(SlotOf(t) * SLOT_MS)
    ensures Tally([t], OnSlotDay(since, dayOf(t), dayOf)) != Tally([t], OnDay(since, dayOf(t), dayOf))
  {
    TallyOne(t, OnSlotDay(since, dayOf(t), dayOf));
    TallyOne(t, OnDay(since, dayOf(t), dayOf));
  }

  /** Counting by slots is counting by days, for every history, exactly when no slot straddles two days. */
  lemma SlotsRefineDays(since: int, dayOf: int -> int)
    ensures SlotsWithinDays(since, dayOf)
            <==> forall ts: seq<int>, day ::
                   Tally(ts, OnSlotDay(since, day, dayOf)) == Tally(ts, OnDay(since, day, dayOf))
  {
    if SlotsWithinDays(since, dayOf) {
      forall ts: seq<int>, day
        ensures Tally(ts, OnSlotDay(since, day, dayOf)) == Tally(ts, OnDay(since, day, dayOf))
      {
        TallySame(ts, OnSlotDay(since, day, dayOf), OnDay(since, day, dayOf));
      }
    } else {
      var t :| t >= since && dayOf(t) != dayOf(SlotOf(t) * SLOT_MS);
      StraddlerMiscounted(since, t, dayOf);
    }
  }
}
