/**
 The dashboard's report: the labels of two periods, the counts under them, totals and weekdays.
 A label is a day of the chosen time zone found by going back whole days from now, so where the
 zone shifts its clock a day can be named twice or not at all.
 */
module AnalyticsReport {
  import opened Ordering
  import opened Analytics

  // ----- clocks -----

  /** Days since 1 January 1970 on a clock that is `offset(t)` milliseconds ahead of UTC at time `t`. */
  ghost predicate OnClock(dayOf: int -> int, offset: int -> int) {
    forall t :: dayOf(t) == (t + offset(t)) / DAY_MS
  }

  /** The clock is never shifted by more than a day. */
  ghost predicate Steady(offset: int -> int) {
    forall t, u :: offset(t) - offset(u) <= DAY_MS
  }

  ghost predicate Fixed(offset: int -> int, o: int) {
    forall t :: offset(t) == o
  }

  lemma SlotDay(t: int, k: int)
    ensures (t + k * SLOT_MS) / DAY_MS == (SlotOf(t) * SLOT_MS + k * SLOT_MS) / DAY_MS
  {
    assert DAY_MS == 96 * SLOT_MS;
    assert (t + k * SLOT_MS) / SLOT_MS == t / SLOT_MS + k;
  }

  /** Slots lie within days while offsets are multiples of a quarter of an hour and change between slots only. */
  lemma QuarterHourClocks(since: int, dayOf: int -> int, offset: int -> int)
    requires OnClock(dayOf, offset)
    requires forall t :: t >= since ==> offset(t) % SLOT_MS == 0 && offset(t) == offset(SlotOf(t) * SLOT_MS)
    ensures SlotsWithinDays(since, dayOf)
  {
    forall t | t >= since
      ensures dayOf(t) == dayOf(SlotOf(t) * SLOT_MS)
    {
      var o := offset(t);
      SlotDay(t, o / SLOT_MS);
      assert o / SLOT_MS * SLOT_MS == o && offset(SlotOf(t) * SLOT_MS) == o;
    }
  }

  /** In a zone that keeps one offset they do, from any time on, exactly if it is a multiple of a quarter of an hour. */
  lemma QuarterHourZones(since: int, dayOf: int -> int, offset: int -> int, o: int)
    requires OnClock(dayOf, offset) && Fixed(offset, o)
    ensures SlotsWithinDays(since, dayOf) <==> o % SLOT_MS == 0
  {
    forall t
      ensures dayOf(t) == (t + o) / DAY_MS
    {
      assert offset(t) == o;
    }
    if o % SLOT_MS == 0 {
      forall t | t >= since
        ensures dayOf(t) == dayOf(SlotOf(t) * SLOT_MS)
      {
        SlotDay(t, o / SLOT_MS);
        assert o / SLOT_MS * SLOT_MS == o;
      }
    } else {
      var midnight := LateMidnight(since, o);
      assert dayOf(SlotOf(midnight) * SLOT_MS) < dayOf(midnight);
    }
  }

  /** Midnights off the quarter hour fall inside a slot, however late they are. */
  lemma LateMidnight(since: int, o: int) returns (midnight: int)
    requires o % SLOT_MS != 0
    ensures midnight >= since
    ensures (SlotOf(midnight) * SLOT_MS + o) / DAY_MS < (midnight + o) / DAY_MS
  {
    var k := if since + o < 0 then 0 else since + o;
    midnight := k * DAY_MS - o;
    assert DAY_MS == 96 * SLOT_MS;
    assert midnight + o == k * DAY_MS;
    assert midnight % SLOT_MS != 0 by {
      assert midnight == 96 * k * SLOT_MS - o;
    }
    assert SlotOf(midnight) * SLOT_MS < midnight;
  }

  /** 1 January 1970 was a Thursday; Sunday is 0. */
  function Weekday(day: int): (w: nat)
    ensures 0 <= w < 7
  {
    (day + 4) % 7
  }

  /** 4 January 1970, day 3, was a Sunday, and each day is followed by the next weekday. */
  lemma WeekdaysFollow(day: int)
    ensures Weekday(3) == 0
    ensures Weekday(day + 1) == if Weekday(day) == 6 then 0 else Weekday(day) + 1
  {
  }

  // ----- labels -----

  function LabelTime(now: int, days: nat, i: int): int {
    now - (days * 2 - 1 - i) * DAY_MS
  }

  /** The labels of both periods; the last is that of `now`. */
  function Labels(now: int, days: nat, dayOf: int -> int): (labels: seq<int>)
    ensures |labels| == 2 * days
    ensures forall i :: 0 <= i < |labels| ==> labels[i] == dayOf(LabelTime(now, days, i))
  {
    seq(2 * days, i => dayOf(LabelTime(now, days, i)))
  }

  /** Where the query starts: two days before the instant of the oldest label. */
  function Since(now: int, days: nat): int {
    now - (days * 2 + 1) * DAY_MS
  }

  function FirstDay(now: int, days: nat, dayOf: int -> int): int {
    dayOf(now) + 1 - days
  }

  /**
   The query starts two days before the instant of the oldest label; a day has 24 hours and a slot a
   quarter of one.
   */
  lemma SinceMeans(now: int, days: nat)
    ensures LabelTime(now, days, 0) - Since(now, days) == 2 * 24 * 60 * 60_000
    ensures LabelTime(now, days, 2 * days - 1) == now
    ensures DAY_MS == 24 * 60 * 60_000 && SLOT_MS == 15 * 60_000 && HOUR_MS == 60 * 60_000
  {
  }

  ghost predicate Consecutive(labels: seq<int>) {
    forall i :: 0 <= i < |labels| - 1 ==> labels[i + 1] == labels[i] + 1
  }

  lemma NextDay(a: int, shift: int)
    ensures (a + DAY_MS + shift) / DAY_MS == a / DAY_MS + 1 <==> 0 <= a % DAY_MS + shift < DAY_MS
  {
  }

  /** A label is the day after the one before exactly if the shift of the clock between them does not cross midnight. */
  lemma LabelFollowsIff(now: int, days: nat, dayOf: int -> int, offset: int -> int, i: nat)
    requires OnClock(dayOf, offset) && i + 1 < 2 * days
    ensures var labels, t := Labels(now, days, dayOf), LabelTime(now, days, i);
            labels[i + 1] == labels[i] + 1 <==>
            0 <= (t + offset(t)) % DAY_MS + (offset(t + DAY_MS) - offset(t)) < DAY_MS
  {
    var t := LabelTime(now, days, i);
    assert LabelTime(now, days, i + 1) == t + DAY_MS;
    NextDay(t + offset(t), offset(t + DAY_MS) - offset(t));
  }

  /** Where the clock is never shifted, labels are consecutive days. */
  lemma LabelsAreConsecutive(now: int, days: nat, dayOf: int -> int, offset: int -> int, o: int)
    requires OnClock(dayOf, offset) && Fixed(offset, o)
    ensures Consecutive(Labels(now, days, dayOf))
  {
    forall i | 0 <= i < 2 * days - 1
      ensures Labels(now, days, dayOf)[i + 1] == Labels(now, days, dayOf)[i] + 1
    {
      var t := LabelTime(now, days, i);
      assert offset(t + DAY_MS) == o && offset(t) == o;
      LabelFollowsIff(now, days, dayOf, offset, i);
    }
  }

  lemma {:induction false} CountBack(labels: seq<int>, i: nat)
    requires Consecutive(labels) && i < |labels|
    ensures labels[i] == labels[|labels| - 1] - (|labels| - 1 - i)
    decreases |labels| - i
  {
    if i < |labels| - 1 {
      CountBack(labels, i + 1);
    }
  }

  lemma NextDayRepeats(a: int, shift: int)
    requires shift >= -DAY_MS
    ensures (a + DAY_MS + shift) / DAY_MS >= a / DAY_MS
    ensures (a + DAY_MS + shift) / DAY_MS == a / DAY_MS <==> a % DAY_MS + shift < 0
  {
  }

  lemma {:induction false} Climbs(labels: seq<int>, i: nat, j: nat)
    requires i < j < |labels| && forall k :: i <= k < j ==> labels[k] < labels[k + 1]
    ensures labels[i] < labels[j]
    decreases j - i
  {
    assert labels[j - 1] < labels[j - 1 + 1];
    if i < j - 1 {
      Climbs(labels, i, j - 1);
    }
  }

  /** Between this label and the next the clock is not put back over midnight. */
  predicate NotPutBack(now: int, days: nat, offset: int -> int, i: int) {
    var t := LabelTime(now, days, i);
    (t + offset(t)) % DAY_MS + (offset(t + DAY_MS) - offset(t)) >= 0
  }

  lemma RepeatsIff(now: int, days: nat, dayOf: int -> int, offset: int -> int, i: nat)
    requires OnClock(dayOf, offset) && Steady(offset) && i + 1 < 2 * days
    ensures var labels := Labels(now, days, dayOf);
            labels[i] <= labels[i + 1] && (labels[i] < labels[i + 1] <==> NotPutBack(now, days, offset, i))
  {
    var t := LabelTime(now, days, i);
    assert LabelTime(now, days, i + 1) == t + DAY_MS;
    assert offset(t) - offset(t + DAY_MS) <= DAY_MS;
    NextDayRepeats(t + offset(t), offset(t + DAY_MS) - offset(t));
  }

  /**
   From label `from` on, no day is named twice exactly if the clock is never put back over midnight
   between labels.
   */
  lemma DistinctLabelsIff(now: int, days: nat, dayOf: int -> int, offset: int -> int, from: nat)
    requires OnClock(dayOf, offset) && Steady(offset) && from <= 2 * days
    ensures Distinct(Labels(now, days, dayOf)[from..]) <==>
            forall i :: from <= i && i + 1 < 2 * days ==> NotPutBack(now, days, offset, i)
  {
    var labels := Labels(now, days, dayOf);
    var tail := labels[from..];
    forall i | from <= i && i + 1 < 2 * days
      ensures labels[i] <= labels[i + 1] && (labels[i] < labels[i + 1] <==> NotPutBack(now, days, offset, i))
    {
      RepeatsIff(now, days, dayOf, offset, i);
    }
    if forall i :: from <= i && i + 1 < 2 * days ==> NotPutBack(now, days, offset, i) {
      forall i, j | 0 <= i < j < |tail|
        ensures tail[i] != tail[j]
      {
        Climbs(labels, from + i, from + j);
      }
    } else {
      var i :| from <= i && i + 1 < 2 * days && !NotPutBack(now, days, offset, i);
      assert tail[i - from] == tail[i - from + 1];
    }
  }

  const HOUR_MS := 60 * 60 * 1000

  /** A zone that goes back, or forward, by an hour at time 0. */
  function Shifted(hours: int): int -> int {
    t => if t < 0 then 0 else hours * HOUR_MS
  }

  /** Half an hour after the clock went back over midnight, the last two labels are the same day. */
  lemma ShiftRepeatsDay(dayOf: int -> int)
    requires OnClock(dayOf, Shifted(-1))
    ensures Labels(HOUR_MS / 2, 1, dayOf) == [-1, -1]
  {
    assert LabelTime(HOUR_MS / 2, 1, 0) == HOUR_MS / 2 - DAY_MS;
  }

  /** With the clock gone forward since half an hour before midnight, a day has no label. */
  lemma ShiftSkipsDay(dayOf: int -> int)
    requires OnClock(dayOf, Shifted(1))
    ensures Labels(DAY_MS - HOUR_MS / 2, 1, dayOf) == [-1, 1]
  {
    assert LabelTime(DAY_MS - HOUR_MS / 2, 1, 0) == -HOUR_MS / 2;
  }

  /** No message of a labelled day is older than the start of the query. */
  lemma WindowCoversLabels(now: int, days: nat, dayOf: int -> int, offset: int -> int, i: nat, t: int)
    requires OnClock(dayOf, offset) && Steady(offset) && i < 2 * days
    requires dayOf(t) == Labels(now, days, dayOf)[i]
    ensures t >= Since(now, days)
  {
    var x := LabelTime(now, days, i);
    assert (t + offset(t)) / DAY_MS == (x + offset(x)) / DAY_MS;
    assert t + offset(t) > x + offset(x) - DAY_MS;
    assert offset(t) - offset(x) <= DAY_MS;
  }

  // ----- counting under labels -----

  datatype Point = Point(date: int, messages: nat, previous: nat)

  datatype Report = Report(daily: seq<Point>, total: nat, previousTotal: nat, byWeekday: seq<nat>)

  ghost function OnDate(day: int, dayOf: int -> int): int -> bool {
    t => dayOf(t) == day
  }

  ghost function InDays(from: int, to: int, dayOf: int -> int): int -> bool {
    t => from <= dayOf(t) < to
  }

  ghost function OnWeekday(from: int, to: int, w: nat, dayOf: int -> int): int -> bool {
    t => from <= dayOf(t) < to && Weekday(dayOf(t)) == w
  }

  function Sum(ns: seq<nat>): nat {
    if ns == [] then 0 else ns[0] + Sum(ns[1..])
  }

  function Messages(daily: seq<Point>): (ns: seq<nat>)
    ensures |ns| == |daily|
    ensures forall k :: 0 <= k < |daily| ==> ns[k] == daily[k].messages
  {
    seq(|daily|, k requires 0 <= k < |daily| => daily[k].messages)
  }

  function Previous(daily: seq<Point>): (ns: seq<nat>)
    ensures |ns| == |daily|
    ensures forall k :: 0 <= k < |daily| ==> ns[k] == daily[k].previous
  {
    seq(|daily|, k requires 0 <= k < |daily| => daily[k].previous)
  }

  function Points(current: seq<int>, previous: seq<int>, perDay: map<int, nat>): (daily: seq<Point>)
    requires |current| == |previous|
    ensures |daily| == |current|
    ensures forall k :: 0 <= k < |daily| ==>
                          daily[k] == Point(current[k], Get(perDay, current[k]), Get(perDay, previous[k]))
  {
    seq(|current|,
        k requires 0 <= k < |current| => Point(current[k], Get(perDay, current[k]), Get(perDay, previous[k])))
  }

  /** The points of the current labels, each beside the label one period earlier, with the counts of the slots. */
  ghost predicate OnLabels(daily: seq<Point>, labels: seq<int>, ts: seq<int>, since: int, dayOf: int -> int) {
    && |labels| == 2 * |daily|
    && forall k :: 0 <= k < |daily| ==>
         && daily[k].date == labels[|daily| + k]
         && daily[k].messages == Tally(ts, OnSlotDay(since, labels[|daily| + k], dayOf))
         && daily[k].previous == Tally(ts, OnSlotDay(since, labels[k], dayOf))
  }

  method CountOnLabels(createdAt: seq<int>, since: int, labels: seq<int>, days: nat, dayOf: int -> int)
    returns (daily: seq<Point>)
    requires |labels| == 2 * days
    ensures |daily| == days && OnLabels(daily, labels, createdAt, since, dayOf)
  {
    var perDay := CountMessagesPerDay(createdAt, since, dayOf);
    var previousLabels, currentLabels := labels[..days], labels[days..];
    daily := Points(currentLabels, previousLabels, perDay);
  }

  /** For a labelled day, what the slots counted is every message of that day. */
  lemma LabelCountIsDirect(ts: seq<int>, now: int, days: nat, dayOf: int -> int, offset: int -> int, i: nat)
    requires OnClock(dayOf, offset) && Steady(offset) && SlotsWithinDays(Since(now, days), dayOf) && i < 2 * days
    ensures var day := Labels(now, days, dayOf)[i];
            Tally(ts, OnSlotDay(Since(now, days), day, dayOf)) == Tally(ts, OnDate(day, dayOf))
  {
    var day := Labels(now, days, dayOf)[i];
    var p, q := OnSlotDay(Since(now, days), day, dayOf), OnDate(day, dayOf);
    forall j | 0 <= j < |ts|
      ensures p(ts[j]) == q(ts[j])
    {
      if dayOf(ts[j]) == day {
        WindowCoversLabels(now, days, dayOf, offset, i, ts[j]);
      }
    }
    TallySame(ts, p, q);
  }

  ghost predicate IsDaily(daily: seq<Point>, ts: seq<int>, from: int, dayOf: int -> int) {
    forall k :: 0 <= k < |daily| ==>
                  && daily[k].date == from + k
                  && daily[k].messages == Tally(ts, OnDate(from + k, dayOf))
                  && daily[k].previous == Tally(ts, OnDate(from + k - |daily|, dayOf))
  }

  ghost predicate IsByWeekday(counts: seq<nat>, ts: seq<int>, from: int, to: int, dayOf: int -> int) {
    |counts| == 7 && forall w :: 0 <= w < 7 ==> counts[w] == Tally(ts, OnWeekday(from, to, w, dayOf))
  }

  lemma NoDays(ts: seq<int>, from: int, counts: seq<nat>, dayOf: int -> int)
    requires |counts| == 7 && forall w :: 0 <= w < 7 ==> counts[w] == 0
    ensures IsByWeekday(counts, ts, from, from, dayOf)
  {
    forall w: nat | 0 <= w < |counts|
      ensures counts[w] == Tally(ts, OnWeekday(from, from, w, dayOf))
    {
      TallyNone(ts, OnWeekday(from, from, w, dayOf));
    }
  }

  lemma OneDayCounted(counts: seq<nat>, ts: seq<int>, from: int, to: int, n: nat, dayOf: int -> int)
    requires IsByWeekday(counts, ts, from, to, dayOf) && from <= to && n == Tally(ts, OnDate(to, dayOf))
    ensures var w := Weekday(to);
            IsByWeekday(counts[w := counts[w] + n], ts, from, to + 1, dayOf)
  {
    var counts' := counts[Weekday(to) := counts[Weekday(to)] + n];
    forall w: nat | w < 7
      ensures counts'[w] == Tally(ts, OnWeekday(from, to + 1, w, dayOf))
    {
      OneMoreDay(ts, from, to, w, dayOf);
    }
  }

  /** Every point has the messages of its label's day, and those of the day one period of labels earlier. */
  ghost predicate IsDirect(daily: seq<Point>, labels: seq<int>, ts: seq<int>, dayOf: int -> int) {
    && |labels| == 2 * |daily|
    && forall k :: 0 <= k < |daily| ==>
         && daily[k].date == labels[|daily| + k]
         && daily[k].messages == Tally(ts, OnDate(labels[|daily| + k], dayOf))
         && daily[k].previous == Tally(ts, OnDate(labels[k], dayOf))
  }

  lemma PointsAreDirect(daily: seq<Point>, ts: seq<int>, now: int, days: nat, dayOf: int -> int, offset: int -> int)
    requires OnClock(dayOf, offset) && Steady(offset) && SlotsWithinDays(Since(now, days), dayOf) && |daily| == days
    requires OnLabels(daily, Labels(now, days, dayOf), ts, Since(now, days), dayOf)
    ensures IsDirect(daily, Labels(now, days, dayOf), ts, dayOf)
  {
    var labels := Labels(now, days, dayOf);
    forall k | 0 <= k < |daily|
      ensures daily[k].messages == Tally(ts, OnDate(labels[|daily| + k], dayOf))
      ensures daily[k].previous == Tally(ts, OnDate(labels[k], dayOf))
    {
      LabelCountIsDirect(ts, now, days, dayOf, offset, k);
      LabelCountIsDirect(ts, now, days, dayOf, offset, |daily| + k);
    }
  }

  lemma ConsecutivePoints(daily: seq<Point>, labels: seq<int>, ts: seq<int>, from: int, dayOf: int -> int)
    requires IsDirect(daily, labels, ts, dayOf) && Consecutive(labels)
    requires labels != [] ==> labels[|labels| - 1] == from + |daily| - 1
    ensures IsDaily(daily, ts, from, dayOf)
  {
    forall k | 0 <= k < |daily|
      ensures daily[k].date == from + k
      ensures daily[k].messages == Tally(ts, OnDate(from + k, dayOf))
      ensures daily[k].previous == Tally(ts, OnDate(from + k - |daily|, dayOf))
    {
      CountBack(labels, |daily| + k);
      CountBack(labels, k);
    }
  }

  /** Adding up the counts of consecutive days counts the whole stretch. */
  lemma {:induction false} SumOfDays(ns: seq<nat>, ts: seq<int>, from: int, dayOf: int -> int)
    requires forall k :: 0 <= k < |ns| ==> ns[k] == Tally(ts, OnDate(from + k, dayOf))
    ensures Sum(ns) == Tally(ts, InDays(from, from + |ns|, dayOf))
    decreases |ns|
  {
    if ns == [] {
      TallyNone(ts, InDays(from, from, dayOf));
    } else {
      assert ns[0] == Tally(ts, OnDate(from + 0, dayOf));
      forall k | 0 <= k < |ns| - 1
        ensures ns[1..][k] == Tally(ts, OnDate(from + 1 + k, dayOf))
      {
        assert ns[k + 1] == Tally(ts, OnDate(from + (k + 1), dayOf));
      }
      SumOfDays(ns[1..], ts, from + 1, dayOf);
      TallyAdd(ts, OnDate(from, dayOf), InDays(from + 1, from + |ns|, dayOf), InDays(from, from + |ns|, dayOf));
    }
  }

  lemma TotalsAreDirect(daily: seq<Point>, ts: seq<int>, from: int, dayOf: int -> int)
    requires IsDaily(daily, ts, from, dayOf)
    ensures Sum(Messages(daily)) == Tally(ts, InDays(from, from + |daily|, dayOf))
    ensures Sum(Previous(daily)) == Tally(ts, InDays(from - |daily|, from, dayOf))
  {
    SumOfDays(Messages(daily), ts, from, dayOf);
    forall k | 0 <= k < |daily|
      ensures Previous(daily)[k] == Tally(ts, OnDate(from - |daily| + k, dayOf))
    {
      assert from - |daily| + k == from + k - |daily|;
    }
    SumOfDays(Previous(daily), ts, from - |daily|, dayOf);
  }

  lemma OneMoreDay(ts: seq<int>, from: int, to: int, w: nat, dayOf: int -> int)
    requires from <= to
    ensures Tally(ts, OnWeekday(from, to + 1, w, dayOf))
            == Tally(ts, OnWeekday(from, to, w, dayOf)) + if Weekday(to) == w then Tally(ts, OnDate(to, dayOf)) else 0
  {
    if Weekday(to) == w {
      TallyAdd(ts, OnWeekday(from, to, w, dayOf), OnDate(to, dayOf), OnWeekday(from, to + 1, w, dayOf));
    } else {
      TallySame(ts, OnWeekday(from, to, w, dayOf), OnWeekday(from, to + 1, w, dayOf));
    }
  }

  /** The weekday counts after the given points. */
  function Weekdays(daily: seq<Point>): (counts: seq<nat>)
    ensures |counts| == 7
    decreases |daily|
  {
    if daily == [] then [0, 0, 0, 0, 0, 0, 0]
    else
      var last := daily[|daily| - 1];
      var counts := Weekdays(daily[..|daily| - 1]);
      counts[Weekday(last.date) := counts[Weekday(last.date)] + last.messages]
  }

  lemma {:induction false} WeekdaysAreDirect(daily: seq<Point>, ts: seq<int>, from: int, k: nat, dayOf: int -> int)
    requires IsDaily(daily, ts, from, dayOf) && k <= |daily|
    ensures IsByWeekday(Weekdays(daily[..k]), ts, from, from + k, dayOf)
    decreases k
  {
    if k == 0 {
      NoDays(ts, from, Weekdays([]), dayOf);
    } else {
      WeekdaysAreDirect(daily, ts, from, k - 1, dayOf);
      assert daily[..k][..k - 1] == daily[..k - 1];
      var n, to := daily[k - 1].messages, from + (k - 1);
      assert n == Tally(ts, OnDate(to, dayOf)) && daily[k - 1].date == to && to + 1 == from + k;
      OneDayCounted(Weekdays(daily[..k - 1]), ts, from, to, n, dayOf);
    }
  }

  method CountByWeekday(daily: seq<Point>) returns (counts: seq<nat>)
    ensures counts == Weekdays(daily)
  {
    var byWeekday := new nat[7](_ => 0);
    assert byWeekday[..] == [0, 0, 0, 0, 0, 0, 0];
    for k := 0 to |daily|
      invariant byWeekday[..] == Weekdays(daily[..k])
    {
      var w := Weekday(daily[k].date);
      byWeekday[w] := byWeekday[w] + daily[k].messages;
      assert daily[..k + 1][..k] == daily[..k];
    }
    assert daily[..|daily|] == daily;
    counts := byWeekday[..];
  }

  lemma AllWeekdays(daily: seq<Point>, counts: seq<nat>, ts: seq<int>, from: int, dayOf: int -> int)
    requires IsDaily(daily, ts, from, dayOf) && counts == Weekdays(daily)
    ensures IsByWeekday(counts, ts, from, from + |daily|, dayOf)
  {
    WeekdaysAreDirect(daily, ts, from, |daily|, dayOf);
    assert daily[..|daily|] == daily;
  }

  lemma {:induction false} SumUpdate(ns: seq<nat>, k: nat, n: nat)
    requires k < |ns|
    ensures Sum(ns[k := ns[k] + n]) == Sum(ns) + n
  {
    if k == 0 {
      assert ns[k := ns[k] + n][1..] == ns[1..];
    } else {
      assert ns[k := ns[k] + n][1..] == ns[1..][k - 1 := ns[k] + n];
      SumUpdate(ns[1..], k - 1, n);
    }
  }

  lemma {:induction false} SumAppend(ns: seq<nat>, n: nat)
    ensures Sum(ns + [n]) == Sum(ns) + n
  {
    if ns == [] {
      assert [n][1..] == [];
    } else {
      assert (ns + [n])[1..] == ns[1..] + [n];
      SumAppend(ns[1..], n);
    }
  }

  lemma ZerosAddUp()
    ensures Sum(Weekdays([])) == 0
  {
    var z: seq<nat> := [0, 0, 0, 0, 0, 0, 0];
    assert z[1..] == [0, 0, 0, 0, 0, 0] && z[1..][1..] == [0, 0, 0, 0, 0] && z[1..][1..][1..] == [0, 0, 0, 0];
    var y: seq<nat> := [0, 0, 0, 0];
    assert y[1..] == [0, 0, 0] && y[1..][1..] == [0, 0] && y[1..][1..][1..] == [0] && y[1..][1..][1..][1..] == [];
    assert Sum(y) == 0;
    assert Sum(z[1..][1..][1..]) == 0;
  }

  /** The weekdays add up to the total, whatever the labels are. */
  lemma {:induction false} WeekdaysAddUp(daily: seq<Point>)
    ensures Sum(Weekdays(daily)) == Sum(Messages(daily))
    decreases |daily|
  {
    if daily == [] {
      ZerosAddUp();
    } else {
      var rest, last := daily[..|daily| - 1], daily[|daily| - 1];
      WeekdaysAddUp(rest);
      SumUpdate(Weekdays(rest), Weekday(last.date), last.messages);
      assert Messages(daily) == Messages(rest) + [last.messages];
      SumAppend(Messages(rest), last.messages);
    }
  }

  // ----- totals when labels may repeat -----

  /** The messages of each label's day, added up. */
  ghost function LabelTotal(ts: seq<int>, labels: seq<int>, dayOf: int -> int): nat {
    if labels == [] then 0 else Tally(ts, OnDate(labels[0], dayOf)) + LabelTotal(ts, labels[1..], dayOf)
  }

  ghost function InLabels(labels: seq<int>, dayOf: int -> int): int -> bool {
    t => exists k :: 0 <= k < |labels| && labels[k] == dayOf(t)
  }

  lemma {:induction false} SumIsLabelTotal(ns: seq<nat>, ts: seq<int>, labels: seq<int>, dayOf: int -> int)
    requires |ns| == |labels| && forall k :: 0 <= k < |ns| ==> ns[k] == Tally(ts, OnDate(labels[k], dayOf))
    ensures Sum(ns) == LabelTotal(ts, labels, dayOf)
    decreases |ns|
  {
    if ns != [] {
      SumIsLabelTotal(ns[1..], ts, labels[1..], dayOf);
    }
  }

  lemma {:induction false} DistinctTotal(ts: seq<int>, labels: seq<int>, dayOf: int -> int)
    requires Distinct(labels)
    ensures LabelTotal(ts, labels, dayOf) == Tally(ts, InLabels(labels, dayOf))
    decreases |labels|
  {
    if labels == [] {
      TallyNone(ts, InLabels([], dayOf));
    } else {
      var rest := labels[1..];
      DistinctTotal(ts, rest, dayOf);
      var p, q, both := OnDate(labels[0], dayOf), InLabels(rest, dayOf), InLabels(labels, dayOf);
      forall i | 0 <= i < |ts|
        ensures both(ts[i]) == (p(ts[i]) || q(ts[i])) && !(p(ts[i]) && q(ts[i]))
      {
        HeadOrRest(labels, dayOf, ts[i]);
      }
      TallyAdd(ts, p, q, both);
    }
  }

  lemma HeadOrRest(labels: seq<int>, dayOf: int -> int, t: int)
    requires labels != []
    ensures InLabels(labels, dayOf)(t) == (OnDate(labels[0], dayOf)(t) || InLabels(labels[1..], dayOf)(t))
    ensures Distinct(labels) ==> !(OnDate(labels[0], dayOf)(t) && InLabels(labels[1..], dayOf)(t))
  {
    var rest := labels[1..];
    if k :| 0 <= k < |labels| && labels[k] == dayOf(t) {
      if k > 0 { assert rest[k - 1] == dayOf(t); }
    }
    if j :| 0 <= j < |rest| && rest[j] == dayOf(t) {
      assert labels[j + 1] == dayOf(t);
    }
  }

  /** One message is counted once for every label of its day. */
  lemma {:induction false} CountedFor(t: int, labels: seq<int>, dayOf: int -> int, i: nat)
    requires i < |labels| && labels[i] == dayOf(t)
    ensures LabelTotal([t], labels, dayOf) >= 1 + LabelTotal([t], labels[i + 1..], dayOf)
    decreases i
  {
    assert [t][1..] == [];
    if i > 0 {
      CountedFor(t, labels[1..], dayOf, i - 1);
      assert labels[1..][i..] == labels[i + 1..];
    }
  }

  /** The total counts every message of the labelled days once, for all histories, exactly if no label repeats. */
  lemma TotalIffDistinct(labels: seq<int>, times: seq<int>, dayOf: int -> int)
    requires |times| == |labels| && forall k :: 0 <= k < |labels| ==> labels[k] == dayOf(times[k])
    ensures Distinct(labels) <==>
            forall ts :: LabelTotal(ts, labels, dayOf) == Tally(ts, InLabels(labels, dayOf))
  {
    if Distinct(labels) {
      forall ts
        ensures LabelTotal(ts, labels, dayOf) == Tally(ts, InLabels(labels, dayOf))
      {
        DistinctTotal(ts, labels, dayOf);
      }
    } else {
      var i, j :| 0 <= i < j < |labels| && labels[i] == labels[j];
      var t := times[i];
      CountedFor(t, labels, dayOf, i);
      CountedFor(t, labels[i + 1..], dayOf, j - i - 1);
      assert [t][1..] == [];
      assert Tally([t], InLabels(labels, dayOf)) <= 1;
    }
  }

  /** What the report holds in any zone: counts under the labels, their sums, and the weekdays of the labels. */
  ghost predicate IsCounted(r: Report, ts: seq<int>, now: int, days: nat, dayOf: int -> int) {
    && |r.daily| == days && OnLabels(r.daily, Labels(now, days, dayOf), ts, Since(now, days), dayOf)
    && r.total == Sum(Messages(r.daily)) && r.previousTotal == Sum(Previous(r.daily))
    && r.byWeekday == Weekdays(r.daily) && Sum(r.byWeekday) == r.total
  }

  method Compute(createdAt: seq<int>, now: int, days: nat, dayOf: int -> int) returns (r: Report)
    ensures IsCounted(r, createdAt, now, days, dayOf)
  {
    var labels := Labels(now, days, dayOf);
    var daily := CountOnLabels(createdAt, Since(now, days), labels, days, dayOf);
    var byWeekday := CountByWeekday(daily);
    WeekdaysAddUp(daily);
    r := Report(daily, Sum(Messages(daily)), Sum(Previous(daily)), byWeekday);
  }

  /** Every number is a direct count over all messages of consecutive days. */
  ghost predicate IsReport(r: Report, ts: seq<int>, from: int, days: nat, dayOf: int -> int) {
    && |r.daily| == days && IsDaily(r.daily, ts, from, dayOf)
    && r.total == Tally(ts, InDays(from, from + days, dayOf))
    && r.previousTotal == Tally(ts, InDays(from - days, from, dayOf))
    && IsByWeekday(r.byWeekday, ts, from, from + days, dayOf)
  }

  /** In every zone of whole quarter hours each point counts its days directly, and the total adds these up. */
  lemma PointsCountDays(r: Report, ts: seq<int>, now: int, days: nat, dayOf: int -> int, offset: int -> int)
    requires IsCounted(r, ts, now, days, dayOf)
    requires OnClock(dayOf, offset) && Steady(offset) && SlotsWithinDays(Since(now, days), dayOf)
    ensures IsDirect(r.daily, Labels(now, days, dayOf), ts, dayOf)
    ensures r.total == LabelTotal(ts, Labels(now, days, dayOf)[days..], dayOf)
    ensures r.previousTotal == LabelTotal(ts, Labels(now, days, dayOf)[..days], dayOf)
  {
    PointsAreDirect(r.daily, ts, now, days, dayOf, offset);
    LabelTotals(r.daily, Labels(now, days, dayOf), ts, dayOf);
  }

  lemma LabelTotals(daily: seq<Point>, labels: seq<int>, ts: seq<int>, dayOf: int -> int)
    requires IsDirect(daily, labels, ts, dayOf)
    ensures Sum(Messages(daily)) == LabelTotal(ts, labels[|daily|..], dayOf)
    ensures Sum(Previous(daily)) == LabelTotal(ts, labels[..|daily|], dayOf)
  {
    SumIsLabelTotal(Messages(daily), ts, labels[|daily|..], dayOf);
    SumIsLabelTotal(Previous(daily), ts, labels[..|daily|], dayOf);
  }

  lemma TotalsMatch(r: Report, ts: seq<int>, from: int, dayOf: int -> int)
    requires IsDaily(r.daily, ts, from, dayOf) && IsByWeekday(r.byWeekday, ts, from, from + |r.daily|, dayOf)
    requires r.total == Sum(Messages(r.daily)) && r.previousTotal == Sum(Previous(r.daily))
    ensures IsReport(r, ts, from, |r.daily|, dayOf)
  {
    TotalsAreDirect(r.daily, ts, from, dayOf);
  }

  lemma ConsecutiveReport(r: Report, ts: seq<int>, labels: seq<int>, from: int, dayOf: int -> int)
    requires IsDirect(r.daily, labels, ts, dayOf) && Consecutive(labels)
    requires labels != [] ==> labels[|labels| - 1] == from + |r.daily| - 1
    requires r.total == Sum(Messages(r.daily)) && r.previousTotal == Sum(Previous(r.daily))
    requires r.byWeekday == Weekdays(r.daily)
    ensures IsReport(r, ts, from, |r.daily|, dayOf)
  {
    ConsecutivePoints(r.daily, labels, ts, from, dayOf);
    assert IsByWeekday(r.byWeekday, ts, from, from + |r.daily|, dayOf) by {
      AllWeekdays(r.daily, r.byWeekday, ts, from, dayOf);
    }
    TotalsMatch(r, ts, from, dayOf);
  }

  /**
   When the labels are consecutive, as they are wherever no shift of the clock crosses midnight,
   every number of the report is a direct count over all messages: per day, per day one period
   earlier, over the whole of each period, and per weekday.
   */
  lemma ReportIsDirect(r: Report, ts: seq<int>, now: int, days: nat, dayOf: int -> int, offset: int -> int)
    requires IsCounted(r, ts, now, days, dayOf)
    requires OnClock(dayOf, offset) && Steady(offset) && SlotsWithinDays(Since(now, days), dayOf)
    requires Consecutive(Labels(now, days, dayOf))
    ensures IsReport(r, ts, FirstDay(now, days, dayOf), days, dayOf)
  {
    PointsAreDirect(r.daily, ts, now, days, dayOf, offset);
    assert days > 0 ==> LabelTime(now, days, 2 * days - 1) == now;
    var from := FirstDay(now, days, dayOf);
    ConsecutiveReport(r, ts, Labels(now, days, dayOf), from, dayOf);
  }
}
