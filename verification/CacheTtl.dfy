/**
 The history cache on a clock: both keys expire, the version counter restarts after its key
 expired, and invalidations may be lost. Freshness is then bounded by the page's lifetime.
 */
module CacheTtl {
  import opened Ids
  import opened Options
  import opened Ordering

  const PAGE_TTL_MS := 5 * 60 * 1000
  const VERSION_TTL_MS := 24 * 60 * 60 * 1000

  datatype PageKey = PageKey(thread: ThreadId, version: nat, limit: nat)

  /** A page loaded at a moment when the thread's messages had changed `changes` times. */
  datatype Page = Page(changes: nat, loadedAt: int)

  datatype Version = Version(value: nat, expiresAt: int)
  datatype Entry = Entry(page: Page, expiresAt: int)

  /** The two kinds of key in Redis; an expired one is as good as missing. */
  datatype Redis = Redis(versions: map<ThreadId, Version>, pages: map<PageKey, Entry>)

  function VersionOf(r: Redis, t: ThreadId, now: int): nat {
    if t in r.versions && now < r.versions[t].expiresAt then r.versions[t].value else 0
  }

  function PageAt(r: Redis, key: PageKey, now: int): Option<Page> {
    if key in r.pages && now < r.pages[key].expiresAt then Some(r.pages[key].page) else None
  }

  /** Atomic INCR and EXPIRE. */
  function Bump(r: Redis, t: ThreadId, now: int): Redis {
    r.(versions := r.versions[t := Version(VersionOf(r, t, now) + 1, now + VERSION_TTL_MS)])
  }

  function SetPage(r: Redis, key: PageKey, page: Page, now: int): Redis {
    r.(pages := r.pages[key := Entry(page, now + PAGE_TTL_MS)])
  }

  /** The page a reader of the thread gets from the cache, if any. */
  function Lookup(r: Redis, t: ThreadId, limit: nat, now: int): Option<Page> {
    PageAt(r, PageKey(t, VersionOf(r, t, now), limit), now)
  }

  class MessageCacheService {
    var redis: Redis

    constructor ()
      ensures redis == Redis(map[], map[])
    {
      redis := Redis(map[], map[]);
    }

    /**
     The cached page, or the key to store one under; neither when Redis is not ready. The
     version is read when `asked` and the page when `looked`.
     */
    method GetFirstPage(ready: bool, t: ThreadId, limit: nat, asked: int, looked: int)
      returns (hit: Option<Page>, store: Option<PageKey>)
      ensures !ready ==> hit.None? && store.None?
      ensures ready ==>
                var key := PageKey(t, VersionOf(redis, t, asked), limit);
                hit == PageAt(redis, key, looked) && store == if hit.Some? then None else Some(key)
    {
      hit, store := None, None;
      if !ready {
        return;
      }
      var version := if t in redis.versions && asked < redis.versions[t].expiresAt then redis.versions[t].value else 0;
      var key := PageKey(t, version, limit);
      if key in redis.pages && looked < redis.pages[key].expiresAt {
        hit := Some(redis.pages[key].page);
      } else {
        store := Some(key);
      }
    }

    /** The page is found under its key until its lifetime is over; no other key and no version is touched. */
    method Store(key: PageKey, page: Page, now: int)
      modifies this
      ensures redis == SetPage(old(redis), key, page, now)
      ensures forall later :: now <= later < now + 300_000 ==> PageAt(redis, key, later) == Some(page)
      ensures forall later :: later >= now + 300_000 ==> PageAt(redis, key, later).None?
      ensures forall other, later :: other != key ==> PageAt(redis, other, later) == PageAt(old(redis), other, later)
      ensures forall t, later :: VersionOf(redis, t, later) == VersionOf(old(redis), t, later)
    {
      redis := redis.(pages := redis.pages[key := Entry(page, now + PAGE_TTL_MS)]);
    }

    /** After an invalidation no page of the thread stored under the version before it is looked up. */
    method Invalidate(ready: bool, t: ThreadId, now: int)
      modifies this
      ensures redis == if ready then Bump(old(redis), t, now) else old(redis)
      ensures ready ==>
                forall later :: VersionOf(redis, t, later) ==
                  if later < now + 86_400_000 then VersionOf(old(redis), t, now) + 1 else 0
      ensures forall u, limit :: u != t ==> Lookup(redis, u, limit, now) == Lookup(old(redis), u, limit, now)
    {
      if ready {
        var v := VersionOf(redis, t, now);
        redis := redis.(versions := redis.versions[t := Version(v + 1, now + VERSION_TTL_MS)]);
      }
    }

    /**
     The first page of the history, uninterrupted: `loaded` is what the database would give. After
     a miss the same request is answered from the cache for as long as the version is the same.
     */
    method FirstPage(ready: bool, t: ThreadId, limit: nat, loaded: Page, now: int) returns (page: Page)
      modifies this
      ensures page == if ready && Lookup(old(redis), t, limit, now).Some?
                      then Lookup(old(redis), t, limit, now).value
                      else loaded
      ensures ready ==>
                forall later ::
                  && now <= later < now + PAGE_TTL_MS
                  && VersionOf(redis, t, later) == VersionOf(redis, t, now)
                  && Lookup(old(redis), t, limit, now).None? ==>
                    Lookup(redis, t, limit, later) == Some(loaded)
    {
      var hit, store := GetFirstPage(ready, t, limit, now, now);
      if hit.Some? {
        return hit.value;
      }
      if store.Some? {
        Store(store.value, loaded, now);
      }
      page := loaded;
    }
  }

  // ----- readers and writers on the clock -----

  /** A reader of the thread followed here; without a key the page is not stored. */
  datatype Run =
    | FetchVersion(limit: nat)
    | LookUp(key: PageKey)
    | Load(target: Option<PageKey>)
    | Fill(target: Option<PageKey>, page: Page)
    | Served(page: Page, at: int)

  /** `changedAt` holds the times of the changes made to thread 0, the one followed here. */
  datatype State = State(now: int, changedAt: seq<int>, redis: Redis, runs: map<RunId, Run>)

  const THREAD: ThreadId := 0

  datatype Step =
    | Tick(to: int)
    | Change
    | Invalidate(t: ThreadId)
    | Begin(id: RunId, limit: nat)
    | Continue(id: RunId)
    | Fail(id: RunId) // the reader's next call to Redis fails

  /** The version the thread has now. */
  function Current(s: State): nat {
    VersionOf(s.redis, THREAD, s.now)
  }

  function Advance(s: State, r: Run): (Redis, Run) {
    match r
    case FetchVersion(limit) => (s.redis, LookUp(PageKey(THREAD, Current(s), limit)))
    case LookUp(key) =>
      var hit := PageAt(s.redis, key, s.now);
      (s.redis, if hit.Some? then Served(hit.value, s.now) else Load(Some(key)))
    case Load(target) => (s.redis, Fill(target, Page(|s.changedAt|, s.now)))
    case Fill(target, page) =>
      (if target.Some? then SetPage(s.redis, target.value, page, s.now) else s.redis, Served(page, s.now))
    case Served(_, _) => (s.redis, r)
  }

  function Failed(s: State, r: Run): Run {
    match r
    case FetchVersion(_) => Load(None)
    case LookUp(_) => Load(None)
    case Fill(_, page) => Served(page, s.now)
    case _ => r
  }

  /** A writer whose invalidation is lost simply takes no `Invalidate` step. */
  function Next(s: State, step: Step): State {
    match step
    case Tick(to) => if to > s.now then s.(now := to) else s
    case Change => s.(changedAt := s.changedAt + [s.now])
    case Invalidate(t) => s.(redis := Bump(s.redis, t, s.now))
    case Begin(id, limit) => if id in s.runs then s else s.(runs := s.runs[id := FetchVersion(limit)])
    case Continue(id) =>
      if id !in s.runs then s
      else
        var (redis, r) := Advance(s, s.runs[id]);
        s.(redis := redis, runs := s.runs[id := r])
    case Fail(id) => if id !in s.runs then s else s.(runs := s.runs[id := Failed(s, s.runs[id])])
  }

  function After(s: State, steps: seq<Step>): State
    decreases |steps|
  {
    if steps == [] then s else After(Next(s, steps[0]), steps[1..])
  }

  /** A step moves the reader it names and no other, and neither time nor changes go back. */
  lemma OthersStay(s: State, step: Step, id: RunId)
    requires id in s.runs && step != Continue(id) && step != Fail(id)
    ensures id in Next(s, step).runs && Next(s, step).runs[id] == s.runs[id]
    ensures s.now <= Next(s, step).now && s.changedAt <= Next(s, step).changedAt
  {
  }

  /** A reader whose version or page cannot be fetched is served the present messages, and nothing is stored. */
  lemma FailureIsAMiss(s: State, id: RunId)
    requires id in s.runs && (s.runs[id].FetchVersion? || s.runs[id].LookUp?)
    ensures Next(Next(Next(s, Fail(id)), Continue(id)), Continue(id))
            == s.(runs := s.runs[id := Served(Page(|s.changedAt|, s.now), s.now)])
  {
  }

  /** A reader whose store fails is served the page it loaded all the same. */
  lemma FailedStoreIsSkipped(s: State, id: RunId)
    requires id in s.runs && s.runs[id].Fill?
    ensures Next(s, Fail(id)) == s.(runs := s.runs[id := Served(s.runs[id].page, s.now)])
  {
  }

  // ----- bounded staleness -----

  /** Every page is stored, or its reader gives up storing it, at most `delay` after it was loaded. */
  predicate Prompt(s: State, steps: seq<Step>, delay: int)
    decreases |steps|
  {
    steps == [] ||
    (&& ((steps[0].Continue? || steps[0].Fail?) && steps[0].id in s.runs && s.runs[steps[0].id].Fill? ==>
           s.now <= s.runs[steps[0].id].page.loadedAt + delay)
     && Prompt(Next(s, steps[0]), steps[1..], delay))
  }

  /** A page misses only changes made since it was loaded. */
  predicate Snapshot(s: State, page: Page) {
    page.loadedAt <= s.now && forall i :: page.changes <= i < |s.changedAt| ==> s.changedAt[i] >= page.loadedAt
  }

  predicate RunTimely(s: State, r: Run, delay: int) {
    match r
    case Fill(_, page) => Snapshot(s, page)
    case Served(page, at) => Snapshot(s, page) && at < page.loadedAt + delay + PAGE_TTL_MS
    case _ => true
  }

  ghost predicate Timely(s: State, delay: int) {
    && (forall id :: id in s.runs ==> RunTimely(s, s.runs[id], delay))
    && (forall key :: key in s.redis.pages ==>
          && Snapshot(s, s.redis.pages[key].page)
          && s.redis.pages[key].expiresAt <= s.redis.pages[key].page.loadedAt + delay + PAGE_TTL_MS)
  }

  lemma {:induction false} AlwaysTimely(s: State, steps: seq<Step>, delay: int)
    requires Timely(s, delay) && Prompt(s, steps, delay)
    ensures Timely(After(s, steps), delay)
    decreases |steps|
  {
    if steps != [] {
      AlwaysTimely(Next(s, steps[0]), steps[1..], delay);
    }
  }

  /**
   Whatever happened to the version key, a page still in the cache under any key misses only
   changes made less than the page lifetime plus the load-to-store delay ago.
   */
  lemma BoundedStaleness(s: State, steps: seq<Step>, delay: int, key: PageKey, i: nat)
    requires Timely(s, delay) && Prompt(s, steps, delay)
    requires var s' := After(s, steps);
             var hit := PageAt(s'.redis, key, s'.now);
             hit.Some? && hit.value.changes <= i < |s'.changedAt|
    ensures After(s, steps).changedAt[i] > After(s, steps).now - PAGE_TTL_MS - delay
  {
    AlwaysTimely(s, steps, delay);
  }

  /** A reader, however slow between fetching the version and looking the page up, misses no older change than that. */
  lemma ServedInTime(s: State, steps: seq<Step>, delay: int, reader: RunId, i: nat)
    requires Timely(s, delay) && Prompt(s, steps, delay)
    requires var s' := After(s, steps);
             && reader in s'.runs && s'.runs[reader].Served?
             && s'.runs[reader].page.changes <= i < |s'.changedAt|
    ensures After(s, steps).changedAt[i] > After(s, steps).runs[reader].at - PAGE_TTL_MS - delay
  {
    AlwaysTimely(s, steps, delay);
  }

  // ----- exactly when a change can be missed -----

  /** Every cached page was stored in the past, under keys of the followed thread if a reader is about to store it. */
  ghost predicate Sane(s: State) {
    && (forall key :: key in s.redis.pages ==> s.redis.pages[key].expiresAt <= s.now + PAGE_TTL_MS)
    && (forall id :: id in s.runs ==> KeyOf(s.runs[id]).Some? ==> KeyOf(s.runs[id]).value.thread == THREAD)
  }

  function KeyOf(r: Run): Option<PageKey> {
    match r
    case LookUp(key) => Some(key)
    case Load(target) => target
    case Fill(target, _) => target
    case _ => None
  }

  lemma SaneKept(s: State, step: Step)
    requires Sane(s)
    ensures Sane(Next(s, step))
  {
  }

  /** A page in the cache that lacks change `i`. */
  predicate LivePage(s: State, key: PageKey, i: nat) {
    && key.thread == THREAD && PageAt(s.redis, key, s.now).Some?
    && s.redis.pages[key].page.changes <= i
  }

  /** The version may still reach the page's: it is not past it, or its key expires before the page. */
  predicate WithinReach(s: State, key: PageKey)
    requires key in s.redis.pages
  {
    || key.version >= Current(s)
    || (THREAD in s.redis.versions && s.redis.pages[key].expiresAt > s.redis.versions[THREAD].expiresAt)
  }

  /** A reader is about to store a page that lacks change `i`. */
  predicate PendingPage(r: Run, i: nat) {
    r.Fill? && r.target.Some? && r.page.changes <= i
  }

  ghost predicate OldPageAround(s: State, i: nat) {
    || (exists id :: id in s.runs && PendingPage(s.runs[id], i))
    || (exists key :: LivePage(s, key, i) && WithinReach(s, key))
  }

  /** The reader, who had not begun, is served a page that lacks change `i`. */
  predicate ServedWithout(s: State, steps: seq<Step>, reader: RunId, i: nat) {
    && reader !in s.runs
    && var s' := After(s, steps);
    && reader in s'.runs && s'.runs[reader].Served? && s'.runs[reader].page.changes <= i
  }

  ghost predicate CanMiss(s: State, i: nat) {
    exists steps, reader :: ServedWithout(s, steps, reader, i)
  }

  /** A reader who has not been given, and cannot find under the version it fetched, a page without change `i`. */
  predicate Sees(s: State, r: Run, i: nat) {
    match r
    case FetchVersion(_) => true
    case LookUp(key) => !LivePage(s, key, i)
    case Load(_) => true
    case Fill(_, page) => page.changes > i
    case Served(page, _) => page.changes > i
  }

  lemma StepKeepsClean(s: State, step: Step, i: nat)
    requires Sane(s) && i < |s.changedAt| && !OldPageAround(s, i)
    ensures i < |Next(s, step).changedAt| && !OldPageAround(Next(s, step), i)
  {
    var s' := Next(s, step);
    forall id | id in s'.runs
      ensures !PendingPage(s'.runs[id], i)
    {
      assert id in s.runs ==> !PendingPage(s.runs[id], i);
    }
    forall key | LivePage(s', key, i)
      ensures !WithinReach(s', key)
    {
      if step.Continue? && step.id in s.runs {
        assert !PendingPage(s.runs[step.id], i);
      }
      assert LivePage(s, key, i) && !WithinReach(s, key);
    }
  }

  lemma StepKeepsSight(s: State, step: Step, reader: RunId, i: nat)
    requires Sane(s) && i < |s.changedAt| && !OldPageAround(s, i)
    requires reader in s.runs && Sees(s, s.runs[reader], i)
    ensures reader in Next(s, step).runs && Sees(Next(s, step), Next(s, step).runs[reader], i)
  {
    var s' := Next(s, step);
    if step.Continue? && step.id in s.runs {
      assert !PendingPage(s.runs[step.id], i);
    }
    if s.runs[reader].FetchVersion? && step == Continue(reader) {
      var key := PageKey(THREAD, Current(s), s.runs[reader].limit);
      assert LivePage(s, key, i) ==> WithinReach(s, key);
    }
  }

  lemma {:induction false} NeverMissed(s: State, steps: seq<Step>, reader: RunId, i: nat)
    requires Sane(s) && i < |s.changedAt| && !OldPageAround(s, i)
    requires reader in s.runs ==> Sees(s, s.runs[reader], i)
    ensures var s' := After(s, steps); reader in s'.runs ==> Sees(s', s'.runs[reader], i)
    decreases |steps|
  {
    if steps != [] {
      SaneKept(s, steps[0]);
      StepKeepsClean(s, steps[0], i);
      if reader in s.runs {
        StepKeepsSight(s, steps[0], reader, i);
      }
      NeverMissed(Next(s, steps[0]), steps[1..], reader, i);
    }
  }

  lemma AfterStep(s: State, step: Step, t: State, rest: seq<Step>)
    requires Next(s, step) == t
    ensures After(s, [step] + rest) == After(t, rest)
  {
    assert ([step] + rest)[1..] == rest;
  }

  /** Further invalidations take the version up to any value it is not past. */
  lemma {:induction false} BumpTo(s: State, version: nat) returns (steps: seq<Step>, r: Redis)
    requires Current(s) <= version
    ensures After(s, steps) == s.(redis := r) && r.pages == s.redis.pages
    ensures VersionOf(r, THREAD, s.now) == version
    decreases version - Current(s)
  {
    if Current(s) == version {
      steps, r := [], s.redis;
    } else {
      var s1 := Next(s, Invalidate(THREAD));
      steps, r := BumpTo(s1, version);
      AfterStep(s, Invalidate(THREAD), s1, steps);
      steps := [Invalidate(THREAD)] + steps;
    }
  }

  lemma {:induction false} AfterConcat(s: State, xs: seq<Step>, ys: seq<Step>)
    ensures After(s, xs + ys) == After(After(s, xs), ys)
    decreases |xs|
  {
    if xs == [] {
      assert xs + ys == ys;
    } else {
      AfterConcat(Next(s, xs[0]), xs[1..], ys);
      assert (xs + ys)[1..] == xs[1..] + ys;
    }
  }

  /** A reader that meets no delay is served the page cached under the current version. */
  lemma ReaderHits(s: State, limit: nat, reader: RunId) returns (steps: seq<Step>)
    requires reader !in s.runs && PageAt(s.redis, PageKey(THREAD, Current(s), limit), s.now).Some?
    ensures var s' := After(s, steps);
            var page := PageAt(s.redis, PageKey(THREAD, Current(s), limit), s.now).value;
            reader in s'.runs && s'.runs[reader] == Served(page, s.now)
  {
    var key := PageKey(THREAD, Current(s), limit);
    var s1 := s.(runs := s.runs[reader := FetchVersion(limit)]);
    var s2 := s.(runs := s.runs[reader := LookUp(key)]);
    var s3 := s.(runs := s.runs[reader := Served(PageAt(s.redis, key, s.now).value, s.now)]);
    AfterStep(s2, Continue(reader), s3, []);
    AfterStep(s1, Continue(reader), s2, [Continue(reader)] + []);
    AfterStep(s, Begin(reader, limit), s1, [Continue(reader)] + ([Continue(reader)] + []));
    steps := [Begin(reader, limit)] + ([Continue(reader)] + ([Continue(reader)] + []));
  }

  /** A live page whose version is not past is found after enough invalidations. */
  lemma AheadIsServed(s: State, key: PageKey, i: nat, reader: RunId) returns (steps: seq<Step>)
    requires LivePage(s, key, i) && key.version >= Current(s) && reader !in s.runs
    ensures ServedWithout(s, steps, reader, i)
  {
    var bumps, r := BumpTo(s, key.version);
    var s1 := s.(redis := r);
    assert PageKey(THREAD, Current(s1), key.limit) == key;
    var fetch := ReaderHits(s1, key.limit, reader);
    AfterConcat(s, bumps, fetch);
    steps := bumps + fetch;
  }

  /** When nobody writes for long enough, the version key expires and the version is zero. */
  lemma Lapse(s: State) returns (steps: seq<Step>, to: int)
    requires THREAD in s.redis.versions
    ensures to >= s.now && to >= s.redis.versions[THREAD].expiresAt
    ensures to == s.now || to == s.redis.versions[THREAD].expiresAt
    ensures After(s, steps) == s.(now := to)
  {
    var x := s.redis.versions[THREAD].expiresAt;
    if x > s.now {
      to := x;
      AfterStep(s, Tick(x), s.(now := x), []);
      steps := [Tick(x)] + [];
    } else {
      steps, to := [], s.now;
    }
  }

  lemma LiveIsServed(s: State, key: PageKey, i: nat)
    requires LivePage(s, key, i) && WithinReach(s, key)
    ensures CanMiss(s, i)
  {
    var reader := FreshId(s.runs);
    if key.version >= Current(s) {
      var steps := AheadIsServed(s, key, i, reader);
      assert ServedWithout(s, steps, reader, i);
    } else {
      var wait, to := Lapse(s);
      var s1 := s.(now := to);
      var steps := AheadIsServed(s1, key, i, reader);
      AfterConcat(s, wait, steps);
      assert ServedWithout(s, wait + steps, reader, i);
    }
  }

  /** A pending page can be stored after the version key has expired. */
  lemma PendingIsServed(s: State, id: RunId, i: nat)
    requires Sane(s) && id in s.runs && PendingPage(s.runs[id], i)
    ensures CanMiss(s, i)
  {
    var reader := FreshId(s.runs);
    var wait, to := [], s.now;
    if THREAD in s.redis.versions {
      wait, to := Lapse(s);
    }
    var s1 := s.(now := to);
    var s2 := Next(s1, Continue(id));
    var key := s.runs[id].target.value;
    assert LivePage(s2, key, i) && Current(s2) == 0;
    var steps := AheadIsServed(s2, key, i, reader);
    AfterStep(s1, Continue(id), s2, steps);
    AfterConcat(s, wait, [Continue(id)] + steps);
    assert ServedWithout(s, wait + ([Continue(id)] + steps), reader, i);
  }

  /**
   With expiring keys, a reader who starts now can be served a page without a change already made
   if and only if a reader is about to store such a page, or one is in the cache that the current
   version has not passed or that outlives the version key.
   */
  lemma MissedIffOldPageAround(s: State, i: nat)
    requires Sane(s) && i < |s.changedAt|
    ensures CanMiss(s, i) <==> OldPageAround(s, i)
  {
    if OldPageAround(s, i) {
      if id :| id in s.runs && PendingPage(s.runs[id], i) {
        PendingIsServed(s, id, i);
      } else {
        var key :| LivePage(s, key, i) && WithinReach(s, key);
        LiveIsServed(s, key, i);
      }
    } else {
      forall steps, reader | reader !in s.runs
        ensures !ServedWithout(s, steps, reader, i)
      {
        NeverMissed(s, steps, reader, i);
      }
    }
  }

  // ----- as long as the version key lives -----

  /** The version never falls back to zero. */
  predicate NoLapse(s: State, steps: seq<Step>)
    decreases |steps|
  {
    steps == [] || (Current(Next(s, steps[0])) >= Current(s) && NoLapse(Next(s, steps[0]), steps[1..]))
  }

  /** Only the passing of time can take the version back. */
  lemma {:induction false} NoLapseAtOnce(s: State, steps: seq<Step>)
    requires forall i :: 0 <= i < |steps| ==> !steps[i].Tick?
    ensures NoLapse(s, steps)
    decreases |steps|
  {
    if steps != [] {
      assert !steps[0].Tick?;
      NoLapseAtOnce(Next(s, steps[0]), steps[1..]);
    }
  }

  /** No page is cached, looked up or about to be stored under a version that has not been reached. */
  ghost predicate Behind(s: State) {
    && (forall key :: key in s.redis.pages && key.thread == THREAD ==> key.version <= Current(s))
    && (forall id :: id in s.runs && KeyOf(s.runs[id]).Some? ==> KeyOf(s.runs[id]).value.version <= Current(s))
  }

  lemma {:induction false} AlwaysBehind(s: State, steps: seq<Step>)
    requires Sane(s) && Behind(s) && NoLapse(s, steps)
    ensures Sane(After(s, steps)) && Behind(After(s, steps))
    decreases |steps|
  {
    if steps != [] {
      SaneKept(s, steps[0]);
      AlwaysBehind(Next(s, steps[0]), steps[1..]);
    }
  }

  /** Pages without change `i`, cached or about to be, have versions below `v`, which has been reached. */
  ghost predicate Passed(s: State, v: nat, i: nat) {
    && i < |s.changedAt| && v <= Current(s)
    && (forall key :: key in s.redis.pages && key.thread == THREAD && key.version >= v ==>
          s.redis.pages[key].page.changes > i)
    && (forall id :: id in s.runs && s.runs[id].Fill?
                     && s.runs[id].target.Some? && s.runs[id].target.value.version >= v ==>
          s.runs[id].page.changes > i)
  }

  predicate SeesFrom(r: Run, v: nat, i: nat) {
    match r
    case FetchVersion(_) => true
    case LookUp(key) => key.thread == THREAD && key.version >= v
    case Load(_) => true
    case Fill(_, page) => page.changes > i
    case Served(page, _) => page.changes > i
  }

  lemma StepKeepsPassed(s: State, step: Step, v: nat, i: nat)
    requires Sane(s) && Passed(s, v, i) && Current(Next(s, step)) >= Current(s)
    ensures Passed(Next(s, step), v, i)
  {
  }

  lemma {:induction false} FreshFrom(s: State, steps: seq<Step>, v: nat, i: nat, reader: RunId)
    requires Sane(s) && Passed(s, v, i) && NoLapse(s, steps)
    requires reader in s.runs ==> SeesFrom(s.runs[reader], v, i)
    ensures var s' := After(s, steps); reader in s'.runs ==> SeesFrom(s'.runs[reader], v, i)
    decreases |steps|
  {
    if steps != [] {
      SaneKept(s, steps[0]);
      StepKeepsPassed(s, steps[0], v, i);
      FreshFrom(Next(s, steps[0]), steps[1..], v, i, reader);
    }
  }

  /**
   As long as the version key does not expire, a reader who fetches the version after a change
   was made and invalidated is served a page that includes it.
   */
  lemma FreshWhileVersionLives(s: State, before: seq<Step>, after: seq<Step>, reader: RunId, i: nat)
    requires Sane(s) && Behind(s) && NoLapse(s, before)
    requires var s1 := After(s, before);
             && i < |s1.changedAt| && (reader in s1.runs ==> s1.runs[reader].FetchVersion?)
             && NoLapse(Next(s1, Invalidate(THREAD)), after)
    ensures var s' := After(Next(After(s, before), Invalidate(THREAD)), after);
            reader in s'.runs && s'.runs[reader].Served? ==> s'.runs[reader].page.changes > i
  {
    AlwaysBehind(s, before);
    var s1 := After(s, before);
    var s2 := Next(s1, Invalidate(THREAD));
    SaneKept(s1, Invalidate(THREAD));
    FreshFrom(s2, after, Current(s1) + 1, i, reader);
  }

  // ----- the version key does expire -----

  /** The version key is about to expire at version 1. */
  function Expiring(): State {
    State(99, [], Redis(map[THREAD := Version(1, 100)], map[]), map[])
  }

  /** A page cached under version 1 while the key was still there; then the key expired and a change was made. */
  function Expired(): State {
    State(100, [100],
          Redis(map[THREAD := Version(1, 100)], map[PageKey(THREAD, 1, 30) := Entry(Page(0, 99), 99 + PAGE_TTL_MS)]),
          map[0 := Served(Page(0, 99), 99)])
  }

  lemma ExpiringRun() returns (steps: seq<Step>)
    ensures After(Expiring(), steps) == Expired()
  {
    var key := PageKey(THREAD, 1, 30);
    var s0 := Expiring();
    var s1 := s0.(runs := map[0 := FetchVersion(30)]);
    var s2 := s0.(runs := map[0 := LookUp(key)]);
    var s3 := s0.(runs := map[0 := Load(Some(key))]);
    var s4 := s0.(runs := map[0 := Fill(Some(key), Page(0, 99))]);
    var s5 := s0.(redis := Expired().redis, runs := Expired().runs);
    AfterStep(s5.(now := 100), Change, Expired(), []);
    AfterStep(s5, Tick(100), s5.(now := 100), [Change] + []);
    var q := [Tick(100)] + ([Change] + []);
    AfterStep(s4, Continue(0), s5, q);
    q := [Continue(0)] + q;
    AfterStep(s3, Continue(0), s4, q);
    q := [Continue(0)] + q;
    AfterStep(s2, Continue(0), s3, q);
    q := [Continue(0)] + q;
    AfterStep(s1, Continue(0), s2, q);
    q := [Continue(0)] + q;
    AfterStep(s0, Begin(0, 30), s1, q);
    steps := [Begin(0, 30)] + q;
  }

  /**
   With a version key that expired and restarted, a reader who begins after a change was made
   and invalidated can be served a page without it.
   */
  lemma StaleAfterVersionExpiry() returns (before: seq<Step>, after: seq<Step>, reader: RunId)
    ensures var s1 := After(Expiring(), before);
            && s1.changedAt == [100]
            && ServedWithout(Next(s1, Invalidate(THREAD)), after, reader, 0)
  {
    before := ExpiringRun();
    reader := 1;
    var s2 := Next(Expired(), Invalidate(THREAD));
    after := AheadIsServed(s2, PageKey(THREAD, 1, 30), 0, reader);
  }
}
