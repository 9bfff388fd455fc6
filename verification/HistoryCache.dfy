/**
 The versioned cache of a thread's first history page, with concurrent readers, slow
 `store` calls and concurrent writers, for as long as the version key lives.

 A reader fetches the version, looks the page up under it and, after a miss, loads the
 page and stores it under the version it fetched. A writer changes the messages and only
 then bumps the version.
 */
module HistoryCache {
  import opened Ids
  import opened Options
  import opened Messages
  import opened Ordering

  /** A cached page: the messages it was computed from, and how many changes they include. */
  datatype CachedPage = CachedPage(position: nat, rows: Store)

  /** `covered` records how many changes the version fetched by a reader stands for. */
  datatype Run =
    // getHistory, first page
    | FetchVersion(limit: nat)
    | LookUp(limit: nat, version: nat, covered: nat)
    | Load(limit: nat, version: nat, covered: nat)
    | Fill(limit: nat, version: nat, covered: nat, page: CachedPage)
    | Served(covered: nat, page: CachedPage)
    // create, markDelivered, markDeliveredTo
    | Change(w: Write)
    | Invalidate(made: nat)
    | Returned(change: Option<nat>)
    // markRead
    | StampRead(range: Range, at: int)
    | FlipRead(range: Range, at: int, change: Option<nat>)
    | ReadNothing(change: Option<nat>)

  /**
   `history[k]` is the store after `k` changes, so change `k` leads from `history[k]` to
   `history[k + 1]`. `floors[v]` is how many changes had been made when the version became `v`.
   */
  datatype State = State(history: seq<Store>, floors: seq<nat>, pages: map<(nat, nat), CachedPage>,
                         runs: map<RunId, Run>)

  datatype Step =
    | Begin(id: RunId, r: Run)
    | Continue(id: RunId)
    | Evict(version: nat, limit: nat)

  predicate Sane(s: State) {
    |s.history| > 0 && |s.floors| > 0
  }

  function Current(s: State): Store
    requires Sane(s)
  {
    s.history[|s.history| - 1]
  }

  /** The number of changes the current version stands for. */
  function Covered(s: State): nat
    requires Sane(s)
  {
    s.floors[|s.floors| - 1]
  }

  predicate IsEntry(r: Run) {
    r.FetchVersion? || r.StampRead? || (r.Change? && (r.w.Insert? || r.w.DeliverOne? || r.w.DeliverTo?))
  }

  /** A write that changes some message appends to the history. */
  function Written(s: State, st: Store): State
    requires Sane(s)
  {
    if st == Current(s) then s else s.(history := s.history + [st])
  }

  function ChangeMade(s: State, st: Store): Option<nat>
    requires Sane(s)
  {
    if st == Current(s) then None else Some(|s.history| - 1)
  }

  function InvalidateAfter(change: Option<nat>, otherwise: Run): Run {
    if change.Some? then Invalidate(change.value) else otherwise
  }

  /** One atomic step of one run: the new shared state and where the run stands next. */
  function Advance(s: State, r: Run): (State, Run)
    requires Sane(s)
  {
    match r
    case FetchVersion(limit) => (s, LookUp(limit, |s.floors| - 1, Covered(s)))
    case LookUp(limit, v, covered) =>
      (s, if (v, limit) in s.pages then Served(covered, s.pages[(v, limit)]) else Load(limit, v, covered))
    case Load(limit, v, covered) => (s, Fill(limit, v, covered, CachedPage(|s.history| - 1, Current(s))))
    case Fill(limit, v, covered, page) => (s.(pages := s.pages[(v, limit) := page]), Served(covered, page))
    case Served(_, _) => (s, r)

    case Change(w) =>
      var st := Apply(Current(s), w);
      (Written(s, st), InvalidateAfter(ChangeMade(s, st), Returned(None)))
    case Invalidate(made) => (s.(floors := s.floors + [|s.history| - 1]), Returned(Some(made)))
    case Returned(_) => (s, r)

    case StampRead(g, at) =>
      var st := Apply(Current(s), Stamp(g, at));
      (Written(s, st), FlipRead(g, at, ChangeMade(s, st)))
    case FlipRead(g, at, change) =>
      var st := Apply(Current(s), MarkRead(g, at));
      (Written(s, st), InvalidateAfter(ChangeMade(s, st), ReadNothing(change)))
    case ReadNothing(_) => (s, r)
  }

  function Next(s: State, step: Step): State
    requires Sane(s)
    ensures Sane(Next(s, step))
  {
    match step
    case Begin(id, r) => if IsEntry(r) && id !in s.runs then s.(runs := s.runs[id := r]) else s
    case Continue(id) =>
      if id !in s.runs then s
      else
        var (s', r) := Advance(s, s.runs[id]);
        s'.(runs := s.runs[id := r])
    case Evict(v, limit) => s.(pages := s.pages - {(v, limit)})
  }

  function After(s: State, steps: seq<Step>): State
    requires Sane(s)
    ensures Sane(After(s, steps))
    decreases |steps|
  {
    if steps == [] then s else After(Next(s, steps[0]), steps[1..])
  }

  // ----- one call alone -----

  /** The shared state and the run after `n` steps of the run with nothing in between. */
  function Alone(s: State, r: Run, n: nat): (State, Run)
    requires Sane(s)
    ensures Sane(Alone(s, r, n).0)
    decreases n
  {
    if n == 0 then (s, r)
    else
      var (s', r') := Advance(s, r);
      Alone(s', r', n - 1)
  }

  /**
   Uninterrupted, a reader is served the page under the current version, or else the present
   messages, which it stores there.
   */
  lemma ReadsAlone(s: State, limit: nat)
    requires Sane(s)
    ensures var (s', r) := Alone(s, FetchVersion(limit), 4);
            var key := (|s.floors| - 1, limit);
            var now := CachedPage(|s.history| - 1, s.history[|s.history| - 1]);
            && (key in s.pages ==> s' == s && r.Served? && r.page == s.pages[key])
            && (key !in s.pages ==> s' == s.(pages := s.pages[key := now]) && r.Served? && r.page == now)
  {
  }

  /** A page that was evicted is computed anew. */
  lemma EvictedIsLoaded(s: State, version: nat, limit: nat)
    requires Sane(s)
    ensures var s' := Next(s, Evict(version, limit));
            var r := Alone(s', FetchVersion(limit), 4).1;
            && s'.history == s.history && s'.floors == s.floors && s'.runs == s.runs
            && (forall key :: key != (version, limit) ==> (key in s'.pages <==> key in s.pages))
            && (forall key :: key in s'.pages ==> s'.pages[key] == s.pages[key])
            && (version == |s.floors| - 1 ==> r.Served? && r.page.rows == s.history[|s.history| - 1])
  {
    ReadsAlone(Next(s, Evict(version, limit)), limit);
  }

  /**
   Uninterrupted, a write that changes something bumps the version to one that stands for the
   change; any other does nothing.
   */
  lemma WritesAlone(s: State, w: Write)
    requires Sane(s)
    ensures var (s', r) := Alone(s, Change(w), 2);
            var st := Apply(s.history[|s.history| - 1], w);
            if st == s.history[|s.history| - 1] then s' == s && r == Returned(None)
            else
              && s' == s.(history := s.history + [st], floors := s.floors + [|s.history|])
              && r == Returned(Some(|s.history| - 1))
  {
  }

  lemma InvalidatesAlone(s: State, made: nat)
    requires Sane(s)
    ensures Alone(s, Invalidate(made), 1) == (s.(floors := s.floors + [|s.history| - 1]), Returned(Some(made)))
  {
  }

  /** The second update of a read call leads to a bump exactly if it marks something. */
  lemma FlipsAlone(s: State, g: Range, at: int, change: Option<nat>)
    requires Sane(s)
    ensures var (s', r) := Alone(s, FlipRead(g, at, change), 1);
            var st := Apply(s.history[|s.history| - 1], MarkRead(g, at));
            if st == s.history[|s.history| - 1] then s' == s && r == ReadNothing(change)
            else s' == s.(history := s.history + [st]) && r == Invalidate(|s.history| - 1)
  {
  }

  /** The first update of a read call bumps nothing, and the second works on what it made. */
  lemma StampsAlone(s: State, g: Range, at: int)
    requires Sane(s)
    ensures var (s', r) := Alone(s, StampRead(g, at), 1);
            var st := Apply(s.history[|s.history| - 1], Stamp(g, at));
            if st == s.history[|s.history| - 1] then s' == s && r == FlipRead(g, at, None)
            else s' == s.(history := s.history + [st]) && r == FlipRead(g, at, Some(|s.history| - 1))
  {
  }

  // ----- what every interleaving keeps -----

  predicate PageSound(s: State, version: nat, page: CachedPage)
    requires Sane(s)
  {
    && version < |s.floors| && s.floors[version] <= page.position < |s.history|
    && page.rows == s.history[page.position]
  }

  /** Another read call has marked messages after change `p` and is about to invalidate. */
  ghost predicate PendingAfter(s: State, p: nat) {
    exists id :: id in s.runs && s.runs[id].Invalidate? && s.runs[id].made > p
  }

  ghost predicate SomeUnread(st: Store, g: Range) {
    exists id :: id in st && Unread(g)(st[id])
  }

  ghost predicate RunSound(s: State, r: Run)
    requires Sane(s)
  {
    match r
    case FetchVersion(_) => true
    case LookUp(_, v, covered) => v < |s.floors| && covered == s.floors[v]
    case Load(_, v, covered) => v < |s.floors| && covered == s.floors[v]
    case Fill(_, v, covered, page) => PageSound(s, v, page) && covered == s.floors[v]
    case Served(covered, page) =>
      covered <= page.position < |s.history| && page.rows == s.history[page.position]
    case Change(_) => IsEntry(r)
    case Invalidate(p) => p + 1 < |s.history|
    case Returned(p) => p.Some? ==> p.value < Covered(s)
    case StampRead(_, _) => true
    case FlipRead(g, _, p) =>
      p.Some? ==>
        p.value + 1 < |s.history| && (p.value < Covered(s) || PendingAfter(s, p.value) || SomeUnread(Current(s), g))
    case ReadNothing(p) => p.Some? ==> p.value < Covered(s) || PendingAfter(s, p.value)
  }

  ghost predicate Consistent(s: State) {
    && Sane(s)
    && (forall v :: 0 <= v < |s.floors| ==> s.floors[v] < |s.history|)
    && (forall v, limit :: (v, limit) in s.pages ==> PageSound(s, v, s.pages[(v, limit)]))
    && (forall id :: id in s.runs ==> RunSound(s, s.runs[id]))
  }

  /** A change never makes an unread message of a range vanish, except by marking it read. */
  lemma UnreadUntilRead(st: Store, w: Write, g: Range)
    requires SomeUnread(st, g)
    ensures SomeUnread(Apply(st, w), g) || (w.MarkRead? && Apply(st, w) != st)
  {
    var id :| id in st && Unread(g)(st[id]);
    var st' := Apply(st, w);
    if !Unread(g)(st'[id]) {
      assert st'[id].status.Read? && st'[id] != st[id];
    }
  }

  lemma StampFindsUnread(st: Store, g: Range, at: int)
    requires Apply(st, Stamp(g, at)) != st
    ensures SomeUnread(Apply(st, Stamp(g, at)), g)
  {
    var st' := Apply(st, Stamp(g, at));
    assert !(forall id :: id in st ==> st'[id] == st[id]);
    var id :| id in st && st'[id] != st[id];
    assert Unread(g)(st'[id]);
  }

  lemma FlipFindsUnread(st: Store, g: Range, at: int)
    requires SomeUnread(st, g)
    ensures Apply(st, MarkRead(g, at)) != st
  {
    var id :| id in st && Unread(g)(st[id]);
    assert Apply(st, MarkRead(g, at))[id].status.Read?;
  }

  /** How one step may change what other runs rely on. */
  ghost predicate Grows(s: State, s': State)
    requires Sane(s) && Sane(s')
  {
    && s.history <= s'.history && s.floors <= s'.floors
    && Covered(s) <= Covered(s')
    && (forall p: nat :: PendingAfter(s, p) ==> PendingAfter(s', p) || p < Covered(s'))
    && (forall g: Range, p: nat {:trigger SomeUnread(Current(s), g), PendingAfter(s', p)} ::
          SomeUnread(Current(s), g) && p + 1 < |s.history| ==> SomeUnread(Current(s'), g) || PendingAfter(s', p))
  }

  lemma RunStaysSound(s: State, s': State, r: Run)
    requires Sane(s) && Sane(s') && RunSound(s, r) && Grows(s, s')
    ensures RunSound(s', r)
  {
    match r
    case FlipRead(g, at, p) =>
      if p.Some? {
        assert PendingAfter(s, p.value) ==> PendingAfter(s', p.value) || p.value < Covered(s');
        assert SomeUnread(Current(s), g) ==> SomeUnread(Current(s'), g) || PendingAfter(s', p.value);
      }
    case ReadNothing(p) =>
      if p.Some? {
        assert PendingAfter(s, p.value) ==> PendingAfter(s', p.value) || p.value < Covered(s');
      }
    case _ =>
  }

  /** The write a run's next step performs. */
  function WriteOf(r: Run): Option<Write> {
    match r
    case Change(w) => Some(w)
    case StampRead(g, at) => Some(Stamp(g, at))
    case FlipRead(g, at, _) => Some(MarkRead(g, at))
    case _ => None
  }

  /** A run that bumps the version covers everything its own invalidation was pending for. */
  lemma PendingKept(s: State, id: RunId, p: nat)
    requires Consistent(s) && id in s.runs && PendingAfter(s, p)
    ensures PendingAfter(Next(s, Continue(id)), p) || p < Covered(Next(s, Continue(id)))
  {
    var j :| j in s.runs && s.runs[j].Invalidate? && s.runs[j].made > p;
    assert RunSound(s, s.runs[j]);
    var s' := Next(s, Continue(id));
    if j != id {
      assert s'.runs[j] == s.runs[j];
    }
  }

  lemma UnreadKept(s: State, id: RunId, g: Range, p: nat)
    requires Consistent(s) && id in s.runs && SomeUnread(Current(s), g) && p + 1 < |s.history|
    ensures SomeUnread(Current(Next(s, Continue(id))), g) || PendingAfter(Next(s, Continue(id)), p)
  {
    var r := s.runs[id];
    var s' := Next(s, Continue(id));
    assert RunSound(s, r);
    if WriteOf(r).Some? {
      UnreadUntilRead(Current(s), WriteOf(r).value, g);
      if r.FlipRead? && Apply(Current(s), WriteOf(r).value) != Current(s) {
        assert s'.runs[id] == Invalidate(|s.history| - 1);
      }
    }
  }

  lemma ContinueGrows(s: State, id: RunId)
    requires Consistent(s) && id in s.runs
    ensures Grows(s, Next(s, Continue(id)))
  {
    var s' := Next(s, Continue(id));
    forall p: nat | PendingAfter(s, p)
      ensures PendingAfter(s', p) || p < Covered(s')
    {
      PendingKept(s, id, p);
    }
    forall g: Range, p: nat | SomeUnread(Current(s), g) && p + 1 < |s.history|
      ensures SomeUnread(Current(s'), g) || PendingAfter(s', p)
    {
      UnreadKept(s, id, g, p);
    }
  }

  lemma FlippedRunSound(s: State, id: RunId)
    requires Consistent(s) && id in s.runs && (s.runs[id].FlipRead? || s.runs[id].ReadNothing?)
    ensures RunSound(Next(s, Continue(id)), Next(s, Continue(id)).runs[id])
  {
    var r := s.runs[id];
    assert RunSound(s, r);
    if r.change.Some? {
      if PendingAfter(s, r.change.value) { PendingKept(s, id, r.change.value); }
      if r.FlipRead? && SomeUnread(Current(s), r.range) { FlipFindsUnread(Current(s), r.range, r.at); }
    }
  }

  /** The stepping run itself ends up sound. */
  lemma SteppedRunSound(s: State, id: RunId)
    requires Consistent(s) && id in s.runs
    ensures RunSound(Next(s, Continue(id)), Next(s, Continue(id)).runs[id])
  {
    var r := s.runs[id];
    assert RunSound(s, r);
    match r
    case StampRead(g, at) =>
      if Apply(Current(s), Stamp(g, at)) != Current(s) {
        StampFindsUnread(Current(s), g, at);
      }
    case FlipRead(_, _, _) => FlippedRunSound(s, id);
    case ReadNothing(_) => FlippedRunSound(s, id);
    case _ =>
  }

  lemma StepConsistent(s: State, step: Step)
    requires Consistent(s)
    ensures Consistent(Next(s, step))
  {
    var s' := Next(s, step);
    match step
    case Continue(id) =>
      if id in s.runs {
        ContinueGrows(s, id);
        SteppedRunSound(s, id);
        forall j | j in s'.runs
          ensures RunSound(s', s'.runs[j])
        {
          if j != id { RunStaysSound(s, s', s.runs[j]); }
        }
        assert RunSound(s, s.runs[id]);
      }
    case _ => OtherStepConsistent(s, step);
  }

  lemma OtherStepConsistent(s: State, step: Step)
    requires Consistent(s) && !step.Continue?
    ensures Consistent(Next(s, step))
  {
    var s' := Next(s, step);
    forall p: nat | PendingAfter(s, p)
      ensures PendingAfter(s', p)
    {
      var j :| j in s.runs && s.runs[j].Invalidate? && s.runs[j].made > p;
      assert s'.runs[j] == s.runs[j];
    }
    forall j | j in s'.runs
      ensures RunSound(s', s'.runs[j])
    {
      if j in s.runs { RunStaysSound(s, s', s.runs[j]); }
    }
  }

  lemma {:induction false} AlwaysConsistent(s: State, steps: seq<Step>)
    requires Consistent(s)
    ensures Consistent(After(s, steps))
    decreases |steps|
  {
    if steps != [] {
      StepConsistent(s, steps[0]);
      AlwaysConsistent(Next(s, steps[0]), steps[1..]);
    }
  }

  // ----- freshness -----

  /** A reader past its version fetch, with the changes that version stands for. */
  predicate Remembers(r: Run, covered: nat) {
    (r.LookUp? || r.Load? || r.Fill? || r.Served?) && r.covered == covered
  }

  lemma {:induction false} ReaderRemembers(s: State, steps: seq<Step>, id: RunId, covered: nat)
    requires Sane(s) && id in s.runs && Remembers(s.runs[id], covered)
    ensures id in After(s, steps).runs && Remembers(After(s, steps).runs[id], covered)
    decreases |steps|
  {
    if steps != [] {
      ReaderRemembers(Next(s, steps[0]), steps[1..], id, covered);
    }
  }

  /** The change a finished writer is answerable for: none, or one that is visible to later readers. */
  ghost predicate Visible(s: State, r: Run)
    requires Sane(s)
  {
    || (r.Returned? && r.change.Some?)
    || (r.ReadNothing? && r.change.Some? && !PendingAfter(s, r.change.value))
  }

  /**
   A page served to a reader is the store as of some moment, and that moment includes every
   change whose call had returned when the reader fetched the version. Calls of `markRead`
   whose second update found nothing are included too, except while a concurrent read call
   that marked the messages instead has yet to invalidate.
   */
  lemma ServedPageIsFresh(s: State, reader: RunId, later: seq<Step>, writer: RunId)
    requires Consistent(s) && reader in s.runs && s.runs[reader].FetchVersion?
    requires writer in s.runs && Visible(s, s.runs[writer])
    requires var s' := After(Next(s, Continue(reader)), later); reader in s'.runs && s'.runs[reader].Served?
    ensures var s' := After(Next(s, Continue(reader)), later);
            var page := s'.runs[reader].page;
            && s.runs[writer].change.value < page.position < |s'.history|
            && page.rows == s'.history[page.position]
  {
    var s1 := Next(s, Continue(reader));
    StepConsistent(s, Continue(reader));
    AlwaysConsistent(s1, later);
    ReaderRemembers(s1, later, reader, Covered(s));
    assert RunSound(After(s1, later), After(s1, later).runs[reader]);
    assert RunSound(s, s.runs[writer]);
  }

  // ----- exactly when a change can be missed -----

  /** No page without change `p` is cached, or about to be stored, under version `v` or later. */
  ghost predicate NoOldPage(s: State, v: nat, p: nat) {
    && (forall v', limit {:trigger (v', limit) in s.pages} ::
          (v', limit) in s.pages && v' >= v ==> s.pages[(v', limit)].position > p)
    && (forall id :: id in s.runs && s.runs[id].Fill? && s.runs[id].version >= v ==> s.runs[id].page.position > p)
  }

  /** A reader who fetched version `v` or later and has not been given a page without change `p`. */
  predicate ReaderSees(r: Run, v: nat, p: nat) {
    || ((r.LookUp? || r.Load?) && r.version >= v)
    || (r.Fill? && r.version >= v && r.page.position > p)
    || (r.Served? && r.page.position > p)
  }

  lemma NoOldPageKept(s: State, step: Step, v: nat, p: nat)
    requires Sane(s) && p + 1 < |s.history| && NoOldPage(s, v, p)
    ensures p + 1 < |Next(s, step).history| && NoOldPage(Next(s, step), v, p)
  {
  }

  lemma ReaderStillSees(s: State, step: Step, v: nat, p: nat, reader: RunId)
    requires Sane(s) && p + 1 < |s.history| && NoOldPage(s, v, p)
    requires reader in s.runs && ReaderSees(s.runs[reader], v, p)
    ensures reader in Next(s, step).runs && ReaderSees(Next(s, step).runs[reader], v, p)
  {
  }

  lemma {:induction false} NeverMissed(s: State, steps: seq<Step>, v: nat, p: nat, reader: RunId)
    requires Consistent(s) && p + 1 < |s.history| && NoOldPage(s, v, p) && v < |s.floors|
    requires reader !in s.runs || s.runs[reader].FetchVersion? || ReaderSees(s.runs[reader], v, p)
             || WriteLike(s.runs[reader])
    ensures var s' := After(s, steps);
            reader in s'.runs && s'.runs[reader].Served? ==> s'.runs[reader].page.position > p
    decreases |steps|
  {
    if steps != [] {
      var s1 := Next(s, steps[0]);
      StepConsistent(s, steps[0]);
      NoOldPageKept(s, steps[0], v, p);
      if reader in s.runs && ReaderSees(s.runs[reader], v, p) {
        ReaderStillSees(s, steps[0], v, p, reader);
      }
      NeverMissed(s1, steps[1..], v, p, reader);
    }
  }

  predicate WriteLike(r: Run) {
    r.Change? || r.Invalidate? || r.Returned? || r.StampRead? || r.FlipRead? || r.ReadNothing?
  }

  /** A new reader goes straight to the page cached under the current version. */
  lemma ReaderHits(s: State, limit: nat, reader: RunId) returns (steps: seq<Step>)
    requires Sane(s) && reader !in s.runs && (|s.floors| - 1, limit) in s.pages
    ensures var s' := After(s, steps);
            reader in s'.runs && s'.runs[reader] == Served(Covered(s), s.pages[(|s.floors| - 1, limit)])
  {
    var v := |s.floors| - 1;
    var s1 := s.(runs := s.runs[reader := FetchVersion(limit)]);
    var s2 := s.(runs := s.runs[reader := LookUp(limit, v, Covered(s))]);
    var s3 := s.(runs := s.runs[reader := Served(Covered(s), s.pages[(v, limit)])]);
    AfterStep(s2, Continue(reader), s3, []);
    AfterStep(s1, Continue(reader), s2, [Continue(reader)] + []);
    AfterStep(s, Begin(reader, FetchVersion(limit)), s1, [Continue(reader)] + ([Continue(reader)] + []));
    steps := [Begin(reader, FetchVersion(limit))] + ([Continue(reader)] + ([Continue(reader)] + []));
  }

  ghost predicate CanMiss(s: State, p: nat)
    requires Sane(s)
  {
    exists steps, reader :: ServedWithout(s, steps, reader, p)
  }

  predicate ServedWithout(s: State, steps: seq<Step>, reader: RunId, p: nat)
    requires Sane(s)
  {
    && reader !in s.runs
    && var s' := After(s, steps);
    && reader in s'.runs && s'.runs[reader].Served? && s'.runs[reader].page.position <= p
  }

  lemma OldPageServed(s: State, p: nat)
    requires Consistent(s) && !NoOldPage(s, |s.floors| - 1, p)
    ensures CanMiss(s, p)
  {
    var v := |s.floors| - 1;
    var reader := FreshId(s.runs);
    if v', limit :| (v', limit) in s.pages && v' >= v && s.pages[(v', limit)].position <= p {
      assert PageSound(s, v', s.pages[(v', limit)]);
      var steps := ReaderHits(s, limit, reader);
      assert ServedWithout(s, steps, reader, p);
    } else {
      var id :| id in s.runs && s.runs[id].Fill? && s.runs[id].version >= v && s.runs[id].page.position <= p;
      assert RunSound(s, s.runs[id]);
      var s1 := Next(s, Continue(id));
      var steps := ReaderHits(s1, s.runs[id].limit, reader);
      AfterStep(s, Continue(id), s1, steps);
      assert ServedWithout(s, [Continue(id)] + steps, reader, p);
    }
  }

  /**
   A reader who starts now can be served a page without a change already made if and only
   if a page without it is cached, or being stored, under the current version.
   */
  lemma MissedIffOldPage(s: State, p: nat)
    requires Consistent(s) && p + 1 < |s.history|
    ensures CanMiss(s, p) <==> !NoOldPage(s, |s.floors| - 1, p)
  {
    if NoOldPage(s, |s.floors| - 1, p) {
      forall steps, reader | reader !in s.runs
        ensures !ServedWithout(s, steps, reader, p)
      {
        NeverMissed(s, steps, |s.floors| - 1, p, reader);
      }
    } else {
      OldPageServed(s, p);
    }
  }

  // ----- the exception is real -----

  const MSG := Message(1, 2, "c", "hi", 10, Sent, None, None)
  const RANGE := Range(Thread(1, 2), Staff, 10)

  function Rows(status: DeliveryStatus, deliveredAt: Option<int>, readAt: Option<int>): Store {
    map[5 := MSG.(status := status, deliveredAt := deliveredAt, readAt := readAt)]
  }

  /** The message as sent, as stamped by the first read call, and as marked by the second. */
  function Rows0(): Store { Rows(Sent, None, None) }
  function Rows1(): Store { Rows(Sent, Some(11), None) }
  function Rows2(): Store { Rows(Read, Some(11), Some(11)) }

  /** The page was cached before either read call. */
  function Story(history: seq<Store>, runs: map<RunId, Run>): State {
    State(history, [0], map[(0, 30) := CachedPage(0, Rows0())], runs)
  }

  lemma StoryWrites()
    ensures Apply(Rows0(), Stamp(RANGE, 11)) == Rows1()
    ensures Apply(Rows1(), Stamp(RANGE, 11)) == Rows1()
    ensures Apply(Rows1(), MarkRead(RANGE, 11)) == Rows2()
    ensures Apply(Rows2(), MarkRead(RANGE, 11)) == Rows2()
    ensures Rows0() != Rows1() && Rows1() != Rows2()
  {
    assert SentBy(OtherSide(Staff), 2, MSG.senderId);
    assert Rows0()[5] != Rows1()[5] && Rows1()[5] != Rows2()[5];
  }

  lemma AfterStep(s: State, step: Step, t: State, rest: seq<Step>)
    requires Sane(s) && Next(s, step) == t
    ensures After(s, [step] + rest) == After(t, rest)
  {
    assert ([step] + rest)[1..] == rest;
  }

  /** Run 1 stamps the message and has yet to mark it. */
  function StoryStamped(): State {
    Story([Rows0(), Rows1()], map[1 := FlipRead(RANGE, 11, Some(0))])
  }

  /** Run 2 has marked it and not yet invalidated; run 1 found nothing and has returned. */
  function StoryReturned(): State {
    Story([Rows0(), Rows1(), Rows2()], map[1 := ReadNothing(Some(0)), 2 := Invalidate(1)])
  }

  lemma StoryStamp() returns (steps: seq<Step>)
    ensures After(Story([Rows0()], map[]), steps) == StoryStamped()
  {
    StoryWrites();
    var s1 := Story([Rows0()], map[1 := StampRead(RANGE, 11)]);
    AfterStep(s1, Continue(1), StoryStamped(), []);
    AfterStep(Story([Rows0()], map[]), Begin(1, StampRead(RANGE, 11)), s1, [Continue(1)] + []);
    steps := [Begin(1, StampRead(RANGE, 11))] + ([Continue(1)] + []);
  }

  /** Both runs are about to mark the message. */
  function StoryRacing(): State {
    Story([Rows0(), Rows1()], map[1 := FlipRead(RANGE, 11, Some(0)), 2 := FlipRead(RANGE, 11, None)])
  }

  lemma StoryRace() returns (steps: seq<Step>)
    ensures After(StoryStamped(), steps) == StoryRacing()
  {
    StoryWrites();
    var s3 := Story([Rows0(), Rows1()], map[1 := FlipRead(RANGE, 11, Some(0)), 2 := StampRead(RANGE, 11)]);
    AfterStep(s3, Continue(2), StoryRacing(), []);
    AfterStep(StoryStamped(), Begin(2, StampRead(RANGE, 11)), s3, [Continue(2)] + []);
    steps := [Begin(2, StampRead(RANGE, 11))] + ([Continue(2)] + []);
  }

  lemma StoryOvertake() returns (steps: seq<Step>)
    ensures After(StoryRacing(), steps) == StoryReturned()
  {
    StoryWrites();
    var s5 := Story([Rows0(), Rows1(), Rows2()], map[1 := FlipRead(RANGE, 11, Some(0)), 2 := Invalidate(1)]);
    AfterStep(s5, Continue(1), StoryReturned(), []);
    AfterStep(StoryRacing(), Continue(2), s5, [Continue(1)] + []);
    steps := [Continue(2)] + ([Continue(1)] + []);
  }

  lemma StoryRead() returns (steps: seq<Step>)
    ensures var s := After(StoryReturned(), steps);
            3 in s.runs && s.runs[3] == Served(0, CachedPage(0, Rows0()))
  {
    var s := StoryReturned();
    var s7 := s.(runs := s.runs[3 := FetchVersion(30)]);
    var s8 := s.(runs := s.runs[3 := LookUp(30, 0, 0)]);
    var s9 := s.(runs := s.runs[3 := Served(0, CachedPage(0, Rows0()))]);
    AfterStep(s8, Continue(3), s9, []);
    AfterStep(s7, Continue(3), s8, [Continue(3)] + []);
    AfterStep(s, Begin(3, FetchVersion(30)), s7, [Continue(3)] + ([Continue(3)] + []));
    steps := [Begin(3, FetchVersion(30))] + ([Continue(3)] + ([Continue(3)] + []));
  }

  lemma {:induction false} AfterConcat(s: State, xs: seq<Step>, ys: seq<Step>)
    requires Sane(s)
    ensures After(s, xs + ys) == After(After(s, xs), ys)
    decreases |xs|
  {
    if xs == [] {
      assert xs + ys == ys;
    } else {
      AfterConcat(Next(s, xs[0]), xs[1..], ys);
      assert (xs + ys)[1..] == xs[1..] + ys;
    }
  }

  /**
   A read call that stamps a message, is overtaken by another that marks it, and returns
   before the other invalidates, leaves a cached page that misses its change.
   */
  lemma StaleAfterEmptyRead() returns (s: State, written: seq<Step>, fetched: seq<Step>, writer: RunId, reader: RunId)
    ensures Consistent(s)
    ensures var s1 := After(s, written);
            reader !in s1.runs && writer in s1.runs && s1.runs[writer] == ReadNothing(Some(0))
    ensures var s2 := After(After(s, written), fetched);
            reader in s2.runs && s2.runs[reader].Served? && s2.runs[reader].page.position == 0
  {
    s, writer, reader := Story([Rows0()], map[]), 1, 3;
    var stamp := StoryStamp();
    var race := StoryRace();
    var overtake := StoryOvertake();
    written := stamp + (race + overtake);
    AfterConcat(s, stamp, race + overtake);
    AfterConcat(StoryStamped(), race, overtake);
    fetched := StoryRead();
  }
}