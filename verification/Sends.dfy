/**
 Sending a message, with retries: any number of `create` calls run at once, each inserting
 under the unique index, touching the thread, invalidating the cache and replying.
 */
module Sends {
  import opened Ids
  import opened Options
  import opened Messages

  /** Where one call stands; `m` carries the thread, the client message id and the text of the request. */
  datatype Run =
    | InsertDoc(m: Message)
    | TouchThread(m: Message, id: MessageId)
    | InvalidateCache(m: Message, id: MessageId)
    | FindExisting(m: Message)
    | Replied(m: Message, id: MessageId, isNew: bool)
    | Failed(m: Message)

  datatype State = State(store: Store, summaries: map<ThreadId, Summary>, runs: map<RunId, Run>)

  /** `id` and `createdAt` are what the database driver chooses for an insert. */
  datatype Step =
    | Begin(run: RunId, m: Message)
    | Continue(run: RunId, id: MessageId, createdAt: int)
    | StatusWrite(w: Write)

  predicate SameKey(x: Message, y: Message) {
    x.threadId == y.threadId && x.clientMessageId == y.clientMessageId
  }

  // ----- the thread's last message -----

  const PREVIEW_LENGTH := 200

  datatype Summary = Summary(lastMessageAt: Option<int>, preview: string)

  datatype Touch = Touch(text: string, sentAt: int)

  function Preview(text: string): string {
    if |text| <= PREVIEW_LENGTH then text else text[..PREVIEW_LENGTH]
  }

  /** A preview is the beginning of its text, 200 characters of it if there are as many. */
  lemma PreviewMeans(text: string)
    ensures Preview(text) <= text && |Preview(text)| == if |text| < 200 then |text| else 200
  {
  }

  /** `touchLastMessage`: one conditional update. */
  function Touched(s: Summary, t: Touch): Summary {
    if s.lastMessageAt.None? || s.lastMessageAt.value <= t.sentAt then Summary(Some(t.sentAt), Preview(t.text)) else s
  }

  /**
   A touch shows its message unless the thread already shows a strictly later one: of equal times
   the last to touch wins.
   */
  lemma TouchMeans(s: Summary, t: Touch)
    ensures s.lastMessageAt.Some? && s.lastMessageAt.value > t.sentAt ==> Touched(s, t) == s
    ensures !(s.lastMessageAt.Some? && s.lastMessageAt.value > t.sentAt) ==>
              Touched(s, t) == Summary(Some(t.sentAt), Preview(t.text))
  {
  }

  function AllTouched(s: Summary, ts: seq<Touch>): Summary
    decreases |ts|
  {
    if ts == [] then s else AllTouched(Touched(s, ts[0]), ts[1..])
  }

  /**
   After touches in any order, the time is the latest one touched and the preview is the
   start of a message sent at that time.
   */
  lemma {:induction false} LastTouchIsLatest(s: Summary, ts: seq<Touch>)
    ensures var s' := AllTouched(s, ts);
            && (forall t :: t in ts ==> s'.lastMessageAt.Some? && t.sentAt <= s'.lastMessageAt.value)
            && (s.lastMessageAt.Some? ==> s'.lastMessageAt.Some? && s.lastMessageAt.value <= s'.lastMessageAt.value)
            && (s' == s || exists t :: t in ts && s' == Summary(Some(t.sentAt), Preview(t.text)))
    decreases |ts|
  {
    if ts != [] {
      var s1 := Touched(s, ts[0]);
      LastTouchIsLatest(s1, ts[1..]);
      var s' := AllTouched(s, ts);
      if s' == s1 {
        assert s1 == s || (ts[0] in ts && s1 == Summary(Some(ts[0].sentAt), Preview(ts[0].text)));
      } else {
        var t :| t in ts[1..] && s' == Summary(Some(t.sentAt), Preview(t.text));
        assert t in ts;
      }
    }
  }

  // ----- interleaved sends -----

  function SummaryOf(s: State, t: ThreadId): Summary {
    if t in s.summaries then s.summaries[t] else Summary(None, "")
  }

  function Next(s: State, step: Step): State {
    match step
    case Begin(run, m) => if run in s.runs then s else s.(runs := s.runs[run := InsertDoc(m)])
    case StatusWrite(w) => if w.Insert? then s else s.(store := Apply(s.store, w))
    case Continue(run, id, createdAt) =>
      if run !in s.runs then s
      else
        match s.runs[run]
        case InsertDoc(m) =>
          var doc := m.(createdAt := createdAt);
          if id in s.store then s // ids are never reused
          else if Duplicate(s.store, doc) then s.(runs := s.runs[run := FindExisting(m)])
          else s.(store := Apply(s.store, Insert(id, doc)), runs := s.runs[run := TouchThread(doc, id)])
        case TouchThread(m, own) =>
          s.(summaries := s.summaries[m.threadId := Touched(SummaryOf(s, m.threadId), Touch(m.text, m.createdAt))],
             runs := s.runs[run := InvalidateCache(m, own)])
        case InvalidateCache(m, own) => s.(runs := s.runs[run := Replied(m, own, true)])
        case FindExisting(m) =>
          // `findOne` may return any match; `id` stands for the one it picks
          if id in s.store && SameKey(s.store[id], m) then s.(runs := s.runs[run := Replied(m, id, false)])
          else if Duplicate(s.store, m) then s
          else s.(runs := s.runs[run := Failed(m)])
        case _ => s
  }

  function After(s: State, steps: seq<Step>): State
    decreases |steps|
  {
    if steps == [] then s else After(Next(s, steps[0]), steps[1..])
  }

  // ----- one call alone -----

  /** The state after a call was entered and has made three steps with nothing in between. */
  function Entered(s: State, run: RunId, m: Message, id: MessageId, at: int): State {
    var s1 := Next(Next(s, Begin(run, m)), Continue(run, id, at));
    Next(Next(s1, Continue(run, id, at)), Continue(run, id, at))
  }

  /** A message under a new key is stored as sent, shown by its thread and said to be new. */
  lemma FirstSend(s: State, run: RunId, m: Message, id: MessageId, at: int)
    requires run !in s.runs && id !in s.store && forall x :: x in s.store ==> !SameKey(s.store[x], m)
    ensures var s' := Entered(s, run, m, id, at);
            var stored := m.(createdAt := at, status := Sent, deliveredAt := None, readAt := None);
            && s'.store == s.store[id := stored]
            && s'.runs[run].Replied? && s'.runs[run].id == id && s'.runs[run].isNew
            && SummaryOf(s', m.threadId) == Touched(SummaryOf(s, m.threadId), Touch(m.text, at))
            && (forall t: ThreadId :: t != m.threadId ==> SummaryOf(s', t) == SummaryOf(s, t))
  {
  }

  /** A retry changes nothing and is answered with the message its key already has. */
  lemma Retry(s: State, run: RunId, m: Message, id: MessageId, at: int, own: MessageId)
    requires run !in s.runs && own !in s.store && id in s.store && SameKey(s.store[id], m)
    ensures var s' := Next(Next(Next(s, Begin(run, m)), Continue(run, own, at)), Continue(run, id, at));
            && s'.store == s.store && s'.summaries == s.summaries
            && s'.runs == s.runs[run := Replied(m, id, false)]
  {
    assert Duplicate(s.store, m.(createdAt := at));
  }

  /** Without a message of that key the call that was refused fails. */
  lemma NoMatchFails(s: State, run: RunId, m: Message, id: MessageId, at: int)
    requires run in s.runs && s.runs[run] == FindExisting(m) && forall x :: x in s.store ==> !SameKey(s.store[x], m)
    ensures Next(s, Continue(run, id, at)) == s.(runs := s.runs[run := Failed(m)])
  {
  }

  /** Deliveries and reads run beside the sends: they change statuses, but neither a thread's summary nor a call. */
  lemma StatusWrites(s: State, w: Write, id: MessageId, at: int)
    ensures var s' := Next(s, StatusWrite(w));
            && s'.store.Keys == s.store.Keys && s'.summaries == s.summaries && s'.runs == s.runs
            && (w == DeliverOne(id, at) && id in s.store && s.store[id].status == Sent ==>
                  s'.store[id].status == Delivered && s'.store[id].deliveredAt == Some(at))
            && (w.MarkRead? ==>
                  forall x :: x in s.store && Unread(w.range)(s.store[x]) ==> s'.store[x].status == Read)
  {
  }

  ghost predicate UniqueStored(st: Store) {
    forall i, j :: i in st && j in st && SameKey(st[i], st[j]) ==> i == j
  }

  /** The call that stored message `id`. */
  predicate Creator(r: Run, id: MessageId) {
    (r.TouchThread? || r.InvalidateCache? || (r.Replied? && r.isNew)) && r.id == id
  }

  predicate Answered(s: State, r: Run) {
    match r
    case InsertDoc(_) => true
    case FindExisting(m) => Duplicate(s.store, m)
    case Failed(_) => false
    case _ => r.id in s.store && SameKey(s.store[r.id], r.m)
  }

  ghost predicate Sound(s: State) {
    && UniqueStored(s.store)
    && (forall run :: run in s.runs ==> Answered(s, s.runs[run]))
    && (forall r1, r2, id ::
          r1 in s.runs && r2 in s.runs && Creator(s.runs[r1], id) && Creator(s.runs[r2], id) ==> r1 == r2)
  }

  /** Writes never remove a message or change what it is. */
  lemma WriteKeepsKeys(st: Store, w: Write, id: MessageId)
    requires id in st
    ensures id in Apply(st, w) && SameKey(st[id], Apply(st, w)[id])
  {
  }

  lemma AnsweredKept(s: State, s': State, r: Run)
    requires Answered(s, r)
    requires forall id :: id in s.store ==> id in s'.store && SameKey(s.store[id], s'.store[id])
    ensures Answered(s', r)
  {
    if r.FindExisting? {
      var id :| id in s.store && SameKey(s.store[id], r.m);
      assert id in s'.store && SameKey(s.store[id], s'.store[id]);
    }
  }

  lemma StatusWriteSound(s: State, w: Write)
    requires Sound(s)
    ensures Sound(Next(s, StatusWrite(w)))
  {
    var s' := Next(s, StatusWrite(w));
    forall id | id in s.store
      ensures id in s'.store && SameKey(s.store[id], s'.store[id])
    {
      WriteKeepsKeys(s.store, w, id);
    }
    forall run | run in s'.runs
      ensures Answered(s', s'.runs[run])
    {
      AnsweredKept(s, s', s.runs[run]);
    }
    forall i, j | i in s'.store && j in s'.store && SameKey(s'.store[i], s'.store[j])
      ensures i == j
    {
      assert SameKey(s.store[i], s.store[j]);
    }
  }

  lemma InsertSound(s: State, run: RunId, id: MessageId, createdAt: int)
    requires Sound(s) && run in s.runs && s.runs[run].InsertDoc?
    ensures Sound(Next(s, Continue(run, id, createdAt)))
  {
    var s' := Next(s, Continue(run, id, createdAt));
    forall x | x in s.store
      ensures x in s'.store && SameKey(s.store[x], s'.store[x])
    {
    }
    forall r | r in s'.runs
      ensures Answered(s', s'.runs[r])
    {
      if r != run { AnsweredKept(s, s', s.runs[r]); }
    }
    forall r1, r2, x | r1 in s'.runs && r2 in s'.runs && Creator(s'.runs[r1], x) && Creator(s'.runs[r2], x)
      ensures r1 == r2
    {
      assert r1 != run ==> Answered(s, s.runs[r1]);
      assert r2 != run ==> Answered(s, s.runs[r2]);
    }
  }

  lemma StepSound(s: State, step: Step)
    requires Sound(s)
    ensures Sound(Next(s, step))
  {
    match step
    case StatusWrite(w) => StatusWriteSound(s, w);
    case Continue(run, id, createdAt) =>
      if run in s.runs {
        assert Answered(s, s.runs[run]);
        if s.runs[run].InsertDoc? { InsertSound(s, run, id, createdAt); }
      }
    case Begin(_, _) =>
  }

  lemma {:induction false} AlwaysSound(s: State, steps: seq<Step>)
    requires Sound(s)
    ensures Sound(After(s, steps))
    decreases |steps|
  {
    if steps != [] {
      StepSound(s, steps[0]);
      AlwaysSound(Next(s, steps[0]), steps[1..]);
    }
  }

  /** Two calls for the same thread and client message id have both been answered. */
  predicate BothReplied(s: State, r1: RunId, r2: RunId) {
    && r1 in s.runs && r2 in s.runs && s.runs[r1].Replied? && s.runs[r2].Replied?
    && SameKey(s.runs[r1].m, s.runs[r2].m)
  }

  /**
   Idempotent sends: in every interleaving at most one message is stored per thread and
   client message id, every reply for that pair carries its id, at most one of them says it
   was created, and no call fails to find the message it collided with.
   */
  lemma SendsAreIdempotent(s: State, steps: seq<Step>)
    requires Sound(s)
    ensures var s' := After(s, steps);
            && UniqueStored(s'.store)
            && (forall r :: r in s'.runs ==> !s'.runs[r].Failed?)
            && (forall r1, r2 | BothReplied(s', r1, r2) ::
                  && s'.runs[r1].id == s'.runs[r2].id
                  && (s'.runs[r1].isNew && s'.runs[r2].isNew ==> r1 == r2))
  {
    AlwaysSound(s, steps);
    var s' := After(s, steps);
    forall r1, r2 | BothReplied(s', r1, r2)
      ensures s'.runs[r1].id == s'.runs[r2].id && (s'.runs[r1].isNew && s'.runs[r2].isNew ==> r1 == r2)
    {
      assert Answered(s', s'.runs[r1]) && Answered(s', s'.runs[r2]);
      if s'.runs[r1].isNew && s'.runs[r2].isNew {
        assert Creator(s'.runs[r1], s'.runs[r1].id) && Creator(s'.runs[r2], s'.runs[r1].id);
      }
    }
  }

  // ----- who says a message was created -----

  /** Every stored message has a call that stored it and says so, or will. */
  ghost predicate Authored(s: State) {
    forall id :: id in s.store ==> exists run :: run in s.runs && Creator(s.runs[run], id)
  }

  lemma StepAuthored(s: State, step: Step)
    requires Authored(s)
    ensures Authored(Next(s, step))
  {
    var s' := Next(s, step);
    forall id | id in s'.store
      ensures exists run :: run in s'.runs && Creator(s'.runs[run], id)
    {
      if id in s.store {
        var run :| run in s.runs && Creator(s.runs[run], id);
        assert run in s'.runs && Creator(s'.runs[run], id);
      } else {
        assert step.Continue? && Creator(s'.runs[step.run], id);
      }
    }
  }

  lemma {:induction false} AlwaysAuthored(s: State, steps: seq<Step>)
    requires Authored(s)
    ensures Authored(After(s, steps))
    decreases |steps|
  {
    if steps != [] {
      StepAuthored(s, steps[0]);
      AlwaysAuthored(Next(s, steps[0]), steps[1..]);
    }
  }

  /** Once every call has replied, exactly one of them says of each stored message that it created it. */
  lemma OneSaysCreated(s: State, steps: seq<Step>, id: MessageId)
    requires Sound(s) && Authored(s) && id in After(s, steps).store
    requires forall run :: run in After(s, steps).runs ==> After(s, steps).runs[run].Replied?
    ensures var s' := After(s, steps);
            exists run :: && run in s'.runs && s'.runs[run].isNew && s'.runs[run].id == id
                          && forall other ::
                               other in s'.runs && s'.runs[other].isNew && s'.runs[other].id == id ==> other == run
  {
    AlwaysSound(s, steps);
    AlwaysAuthored(s, steps);
    var s' := After(s, steps);
    var run :| run in s'.runs && Creator(s'.runs[run], id);
    forall other | other in s'.runs && s'.runs[other].isNew && s'.runs[other].id == id
      ensures other == run
    {
      assert Creator(s'.runs[other], id);
    }
  }

  // ----- the last message of each thread, under interleaving -----

  /** The message a touch is about is stored as the call sent it. */
  predicate Stored(st: Store, id: MessageId, m: Message) {
    && id in st && st[id].threadId == m.threadId && st[id].createdAt == m.createdAt && st[id].text == m.text
  }

  /** The summary shows a stored message of its thread. */
  ghost predicate ShowsStored(s: State, t: ThreadId, summary: Summary) {
    summary.lastMessageAt.Some? ==>
      exists id :: && id in s.store && s.store[id].threadId == t && s.store[id].createdAt == summary.lastMessageAt.value
                   && summary.preview == Preview(s.store[id].text)
  }

  predicate NotNewer(s: State, m: Message) {
    var last := SummaryOf(s, m.threadId).lastMessageAt;
    last.Some? && m.createdAt <= last.value
  }

  ghost predicate TouchPending(s: State, id: MessageId) {
    exists run :: run in s.runs && s.runs[run].TouchThread? && s.runs[run].id == id
  }

  /** Every stored message is no newer than its thread's summary, or its call is about to touch the thread. */
  ghost predicate Summarized(s: State) {
    && (forall t: ThreadId :: ShowsStored(s, t, SummaryOf(s, t)))
    && (forall run :: run in s.runs && s.runs[run].TouchThread? ==> Stored(s.store, s.runs[run].id, s.runs[run].m))
    && (forall id :: id in s.store ==> NotNewer(s, s.store[id]) || TouchPending(s, id))
  }

  lemma InsertSummarized(s: State, run: RunId, id: MessageId, createdAt: int)
    requires Summarized(s) && run in s.runs && s.runs[run].InsertDoc?
    ensures Summarized(Next(s, Continue(run, id, createdAt)))
  {
    var s' := Next(s, Continue(run, id, createdAt));
    forall t: ThreadId
      ensures ShowsStored(s', t, SummaryOf(s', t))
    {
      assert ShowsStored(s, t, SummaryOf(s, t));
      KeptShows(s, s', t, SummaryOf(s, t));
    }
    forall x | x in s'.store
      ensures NotNewer(s', s'.store[x]) || TouchPending(s', x)
    {
      if x in s.store {
        KeptPending(s, s', x);
      } else {
        assert s'.runs[run].TouchThread? && s'.runs[run].id == x;
      }
    }
  }

  lemma KeptShows(s: State, s': State, t: ThreadId, summary: Summary)
    requires ShowsStored(s, t, summary)
    requires forall id :: id in s.store ==> Stored(s'.store, id, s.store[id])
    ensures ShowsStored(s', t, summary)
  {
    if summary.lastMessageAt.Some? {
      var id :| && id in s.store && s.store[id].threadId == t && s.store[id].createdAt == summary.lastMessageAt.value
                && summary.preview == Preview(s.store[id].text);
      assert Stored(s'.store, id, s.store[id]);
    }
  }

  lemma KeptPending(s: State, s': State, id: MessageId)
    requires forall r :: r in s.runs && s.runs[r].TouchThread? ==> r in s'.runs && s'.runs[r] == s.runs[r]
    ensures TouchPending(s, id) ==> TouchPending(s', id)
  {
    if r :| r in s.runs && s.runs[r].TouchThread? && s.runs[r].id == id {
      assert s'.runs[r] == s.runs[r];
    }
  }

  lemma TouchSummarized(s: State, run: RunId, id: MessageId, createdAt: int)
    requires Summarized(s) && run in s.runs && s.runs[run].TouchThread?
    ensures Summarized(Next(s, Continue(run, id, createdAt)))
  {
    var s' := Next(s, Continue(run, id, createdAt));
    var m, own := s.runs[run].m, s.runs[run].id;
    assert Stored(s.store, own, m);
    forall t: ThreadId
      ensures ShowsStored(s', t, SummaryOf(s', t))
    {
      assert ShowsStored(s, t, SummaryOf(s, t));
      if SummaryOf(s', t) == SummaryOf(s, t) {
        KeptShows(s, s', t, SummaryOf(s, t));
      } else {
        assert own in s'.store && SummaryOf(s', t).preview == Preview(s'.store[own].text);
      }
    }
    forall x | x in s'.store
      ensures NotNewer(s', s'.store[x]) || TouchPending(s', x)
    {
      if !NotNewer(s, s.store[x]) && x != own {
        var r :| r in s.runs && s.runs[r].TouchThread? && s.runs[r].id == x;
        assert s'.runs[r] == s.runs[r];
      }
    }
  }

  /** A status update leaves the time, thread and text of every message as they are. */
  lemma StatusSummarized(s: State, w: Write)
    requires Summarized(s)
    ensures Summarized(Next(s, StatusWrite(w)))
  {
    var s' := Next(s, StatusWrite(w));
    assert s'.runs == s.runs && s'.store.Keys == s.store.Keys;
    forall id | id in s.store
      ensures Stored(s'.store, id, s.store[id])
    {
    }
    forall t: ThreadId
      ensures ShowsStored(s', t, SummaryOf(s', t))
    {
      assert ShowsStored(s, t, SummaryOf(s, t));
      KeptShows(s, s', t, SummaryOf(s, t));
    }
    forall x | x in s'.store
      ensures NotNewer(s', s'.store[x]) || TouchPending(s', x)
    {
      assert NotNewer(s, s.store[x]) || TouchPending(s, x);
    }
  }

  /** The remaining steps touch neither messages nor summaries, nor a call that has a touch to make. */
  lemma OtherSummarized(s: State, step: Step)
    requires Summarized(s) && !step.StatusWrite?
    requires step.Continue? && step.run in s.runs ==> !s.runs[step.run].InsertDoc? && !s.runs[step.run].TouchThread?
    ensures Summarized(Next(s, step))
  {
    var s' := Next(s, step);
    assert s'.store == s.store && s'.summaries == s.summaries;
    forall t: ThreadId
      ensures ShowsStored(s', t, SummaryOf(s', t))
    {
      assert ShowsStored(s, t, SummaryOf(s, t));
      KeptShows(s, s', t, SummaryOf(s, t));
    }
    forall x | x in s'.store
      ensures NotNewer(s', s'.store[x]) || TouchPending(s', x)
    {
      KeptPending(s, s', x);
    }
  }

  lemma {:induction false} AlwaysSummarized(s: State, steps: seq<Step>)
    requires Summarized(s)
    ensures Summarized(After(s, steps))
    decreases |steps|
  {
    if steps != [] {
      var step := steps[0];
      if step.Continue? && step.run in s.runs && s.runs[step.run].InsertDoc? {
        InsertSummarized(s, step.run, step.id, step.createdAt);
      } else if step.Continue? && step.run in s.runs && s.runs[step.run].TouchThread? {
        TouchSummarized(s, step.run, step.id, step.createdAt);
      } else if step.StatusWrite? {
        StatusSummarized(s, step.w);
      } else {
        OtherSummarized(s, step);
      }
      AlwaysSummarized(Next(s, step), steps[1..]);
    }
  }

  /**
   In every interleaving of sends, once no call has a touch left to make, a thread's time is that
   of its newest stored message, and its preview the start of a message sent at that time.
   */
  lemma SummaryIsLatest(s: State, steps: seq<Step>, id: MessageId)
    requires Summarized(s) && id in After(s, steps).store
    requires forall run :: run in After(s, steps).runs ==> !After(s, steps).runs[run].TouchThread?
    ensures var s' := After(s, steps);
            var t := s'.store[id].threadId;
            var summary := SummaryOf(s', t);
            && summary.lastMessageAt.Some? && ShowsStored(s', t, summary)
            && (forall x :: x in s'.store && s'.store[x].threadId == t ==>
                  s'.store[x].createdAt <= summary.lastMessageAt.value)
  {
    AlwaysSummarized(s, steps);
    var s' := After(s, steps);
    forall x | x in s'.store
      ensures NotNewer(s', s'.store[x])
    {
      assert !TouchPending(s', x);
    }
  }
}
