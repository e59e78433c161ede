/**
 Sync windows and the scheduler that asks about them. Instants are nanoseconds
 on the scheduler's own clock, counted from midnight of Thursday, 1 January 1970;
 every day has 24 hours.
 */
module Windows {
  import opened Prelude

  const MINUTE := 60_000_000_000
  const DAY := 1440 * MINUTE

  /** `days` holds weekdays, Sunday being 0; `start` and `end` are minutes after midnight. */
  datatype Window = Window(days: set<int>, start: int, end: int)

  predicate Parsed(w: Window) {
    (forall d :: d in w.days ==> 0 <= d < 7) && 0 <= w.start < 1440 && 0 <= w.end < 1440
  }

  predicate SpansDay(w: Window) { w.end <= w.start && (w.start != 0 || w.end != 0) }

  function DayOf(t: int): int { t / DAY }

  function MinuteOf(t: int): int { t % DAY / MINUTE }

  function Weekday(d: int): int { (d + 4) % 7 }

  /** The first of January 1970 was a Thursday, and the days of the week go round. */
  lemma WeekdaysGoRound(d: int)
    ensures Weekday(0) == 4 && 0 <= Weekday(d) < 7
    ensures Weekday(d + 1) == if Weekday(d) == 6 then 0 else Weekday(d) + 1
  {
  }

  predicate Configured(w: Window, d: int) { Weekday(d) in w.days }

  /** The code's test: an evening half that belongs to today, a morning half that belongs to yesterday. */
  predicate Contains(w: Window, t: int) {
    var now, today := MinuteOf(t), Configured(w, DayOf(t));
    if !SpansDay(w) then today && w.start <= now < w.end
    else (today && now >= w.start) || (Configured(w, DayOf(t) - 1) && now < w.end)
  }

  // ----- what a window means ------------------------------------------------

  /** When the window of day `d` opens. */
  function Opening(w: Window, d: int): int { d * DAY + w.start * MINUTE }

  /** How long it stays open, in minutes; nothing at all from 00:00 to 00:00. */
  function Length(w: Window): int { if SpansDay(w) then w.end - w.start + 1440 else w.end - w.start }

  /** The window opened on configured day `d` and is not closed yet. */
  ghost predicate OpenSince(w: Window, d: int, t: int) {
    Configured(w, d) && Opening(w, d) <= t < Opening(w, d) + Length(w) * MINUTE
  }

  lemma MinuteIsFloor(t: int, m: int)
    requires 0 <= m <= 1440
    ensures 0 <= MinuteOf(t) < 1440
    ensures MinuteOf(t) < m <==> t < DayOf(t) * DAY + m * MINUTE
    ensures DayOf(t) * DAY <= t < (DayOf(t) + 1) * DAY
  {
  }

  lemma OpenSinceTodayOrYesterday(w: Window, d: int, t: int)
    requires Parsed(w) && OpenSince(w, d, t)
    ensures d == DayOf(t) || (d == DayOf(t) - 1 && SpansDay(w))
  {
    MinuteIsFloor(t, 0);
  }

  /** The test holds exactly while some configured day's window is open. */
  lemma ContainsExactly(w: Window, t: int)
    requires Parsed(w)
    ensures Contains(w, t) <==> exists d :: OpenSince(w, d, t)
  {
    var d := DayOf(t);
    MinuteIsFloor(t, w.start);
    MinuteIsFloor(t, w.end);
    if Contains(w, t) {
      assert OpenSince(w, d, t) || OpenSince(w, d - 1, t);
    }
    if c :| OpenSince(w, c, t) { OpenSinceTodayOrYesterday(w, c, t); }
  }

  // ----- the next opening ---------------------------------------------------

  ghost predicate IsNextStart(w: Window, from: int, r: Option<int>) {
    match r
    case None => forall d :: !Configured(w, d)
    case Some(t) =>
      && from < t
      && (exists d :: Configured(w, d) && t == Opening(w, d))
      && (forall d :: Configured(w, d) && from < Opening(w, d) ==> t <= Opening(w, d))
  }

  lemma SomeDay(days: set<int>) returns (d: int)
    requires days != {} && forall x :: x in days ==> 0 <= x < 7
    ensures d in days
  {
    d := 0;
    while d < 6 && d !in days
      invariant 0 <= d <= 6 && forall x :: 0 <= x < d ==> x !in days
    {
      d := d + 1;
    }
    assert d !in days ==> days == {};
  }

  /** Any seven consecutive days hold a configured one. */
  lemma WeekHasDay(w: Window, first: int) returns (d: int)
    requires Parsed(w) && w.days != {}
    ensures first <= d < first + 7 && Configured(w, d)
  {
    var wd := SomeDay(w.days);
    d := first + (wd - Weekday(first)) % 7;
    assert Weekday(d) == wd;
  }

  lemma EarlierDaysOpenEarlier(w: Window, from: int, d: int)
    requires Parsed(w) && d != DayOf(from)
    ensures Opening(w, d) <= from <==> d < DayOf(from)
  {
    MinuteIsFloor(from, 0);
  }

  lemma FoundIsNext(w: Window, from: int, d0: int)
    requires Parsed(w) && Configured(w, d0) && from < Opening(w, d0) && DayOf(from) <= d0
    requires forall d :: DayOf(from) <= d < d0 && Configured(w, d) ==> Opening(w, d) <= from
    ensures IsNextStart(w, from, Some(Opening(w, d0)))
  {
    forall d | Configured(w, d) && from < Opening(w, d) ensures Opening(w, d0) <= Opening(w, d) {
      if d < DayOf(from) { EarlierDaysOpenEarlier(w, from, d); }
    }
  }

  lemma NoDaysNone(w: Window, from: int)
    requires w.days == {}
    ensures IsNextStart(w, from, None)
  {
  }

  /** Walks from day to day, at most eight times, and always finds the earliest opening after `from`. */
  method NextStart(w: Window, from: int) returns (r: Option<int>)
    requires Parsed(w)
    ensures IsNextStart(w, from, r) && (r.None? <==> w.days == {})
  {
    if w.days == {} {
      NoDaysNone(w, from);
      return None;
    }
    ghost var d0 := WeekHasDay(w, DayOf(from) + 1);
    EarlierDaysOpenEarlier(w, from, d0);
    var candidate := from;
    for i := 0 to 8
      invariant DayOf(candidate) == DayOf(from) + i
      invariant forall d :: DayOf(from) <= d < DayOf(from) + i && Configured(w, d) ==> Opening(w, d) <= from
    {
      var d := DayOf(candidate);
      if Configured(w, d) {
        var start := Opening(w, d);
        if start > from {
          FoundIsNext(w, from, d);
          return Some(start);
        }
      }
      candidate := (d + 1) * DAY;
    }
    assert false;
  }

  // ----- the scheduler ------------------------------------------------------

  datatype Scheduler = Scheduler(windows: seq<Window>, insideRate: int, outsideRate: int, urgentFullSpeed: bool)

  predicate Valid(s: Scheduler) { forall k :: 0 <= k < |s.windows| ==> Parsed(s.windows[k]) }

  ghost predicate InWindow(s: Scheduler, t: int) {
    s.windows == [] || exists k, d :: 0 <= k < |s.windows| && OpenSince(s.windows[k], d, t)
  }

  method IsInWindow(s: Scheduler, now: int) returns (r: bool)
    requires Valid(s)
    ensures r <==> InWindow(s, now)
  {
    if s.windows == [] { return true; }
    for k := 0 to |s.windows|
      invariant forall j, d :: 0 <= j < k ==> !OpenSince(s.windows[j], d, now)
    {
      ContainsExactly(s.windows[k], now);
      if Contains(s.windows[k], now) { return true; }
    }
    return false;
  }

  /** The rate limit in bytes per second; 0 is no limit. */
  ghost function Rate(s: Scheduler, t: int, urgent: bool): int {
    if urgent && s.urgentFullSpeed then 0 else if InWindow(s, t) then s.insideRate else s.outsideRate
  }

  /** Exempt requests run free; all others get the one rate while a window is open and the other rate else. */
  method CurrentRate(s: Scheduler, now: int, urgent: bool) returns (r: int)
    requires Valid(s)
    ensures r == Rate(s, now, urgent)
    ensures urgent && s.urgentFullSpeed ==> r == 0
    ensures !(urgent && s.urgentFullSpeed) && s.windows == [] ==> r == s.insideRate
    ensures !(urgent && s.urgentFullSpeed) && (exists k, d :: 0 <= k < |s.windows| && OpenSince(s.windows[k], d, now)) ==>
              r == s.insideRate
    ensures !(urgent && s.urgentFullSpeed) && s.windows != [] ==>
              (forall k, d :: 0 <= k < |s.windows| ==> !OpenSince(s.windows[k], d, now)) ==> r == s.outsideRate
  {
    if urgent && s.urgentFullSpeed { return 0; }
    var inside := IsInWindow(s, now);
    return if inside then s.insideRate else s.outsideRate;
  }

  ghost predicate Opens(s: Scheduler, k: nat, d: int, t: int) {
    k < |s.windows| && Configured(s.windows[k], d) && t == Opening(s.windows[k], d)
  }

  /** The earliest opening after `now` among the first `n` windows. */
  ghost predicate Earliest(s: Scheduler, n: nat, now: int, r: Option<int>)
    requires n <= |s.windows|
  {
    match r
    case None => forall k, d :: 0 <= k < n ==> !Configured(s.windows[k], d)
    case Some(t) =>
      && now < t
      && (exists k: nat, d :: k < n && Opens(s, k, d, t))
      && (forall k, d :: 0 <= k < n && Configured(s.windows[k], d) && now < Opening(s.windows[k], d) ==>
            t <= Opening(s.windows[k], d))
  }

  lemma EarliestStep(s: Scheduler, n: nat, now: int, r: Option<int>, next: Option<int>)
    requires n < |s.windows| && Earliest(s, n, now, r) && IsNextStart(s.windows[n], now, next)
    ensures Earliest(s, n + 1, now, if next.Some? && (r.None? || next.value < r.value) then next else r)
  {
    if next.Some? {
      var d :| Configured(s.windows[n], d) && next.value == Opening(s.windows[n], d);
      assert Opens(s, n, d, next.value);
    }
  }

  /** Reads the clock twice: `now` for the search, and `again` to see whether a window is open. */
  method NextWindowStart(s: Scheduler, now: int, again: int) returns (r: Option<int>)
    requires Valid(s)
    ensures InWindow(s, again) ==> r.None?
    ensures !InWindow(s, again) ==> Earliest(s, |s.windows|, now, r)
  {
    var inside := IsInWindow(s, again);
    if inside { return None; }
    r := None;
    for k := 0 to |s.windows|
      invariant Earliest(s, k, now, r)
    {
      var next := NextStart(s.windows[k], now);
      EarliestStep(s, k, now, r, next);
      if next.Some? && (r.None? || next.value < r.value) { r := next; }
    }
  }

  /** A window open at a later instant either opened in between or was open all along. */
  lemma OpenAllAlong(s: Scheduler, again: int, t: int)
    requires !InWindow(s, again) && again <= t
    ensures forall k, d :: 0 <= k < |s.windows| && OpenSince(s.windows[k], d, t) ==> again < Opening(s.windows[k], d)
  {
    assert forall k, d :: 0 <= k < |s.windows| && OpenSince(s.windows[k], d, t) && Opening(s.windows[k], d) <= again ==>
        OpenSince(s.windows[k], d, again);
  }

  /**
   Outside every window, the announced opening is the first moment anything can
   change: until then the scheduler stays outside, and every request that is not
   exempt gets the outside rate. With nothing announced it stays so for good.
   */
  lemma OutsideUntilNext(s: Scheduler, now: int, again: int, r: Option<int>, t: int, urgent: bool)
    requires Valid(s) && now <= again && !InWindow(s, again) && Earliest(s, |s.windows|, now, r)
    requires again <= t && (r.Some? ==> t < r.value)
    ensures !InWindow(s, t) && Rate(s, t, urgent) == if urgent && s.urgentFullSpeed then 0 else s.outsideRate
  {
    OpenAllAlong(s, again, t);
  }

  /**
   At the announced moment the scheduler is inside a window exactly when some window
   opening then is not empty; a window from 00:00 to 00:00 is announced but never opens.
   */
  lemma OpensWhenAnnounced(s: Scheduler, now: int, again: int, t: int)
    requires Valid(s) && now <= again <= t && !InWindow(s, again) && Earliest(s, |s.windows|, now, Some(t))
    ensures InWindow(s, t) <==> exists k: nat, d :: Opens(s, k, d, t) && Length(s.windows[k]) > 0
  {
    OpenAllAlong(s, again, t);
    if k, d :| 0 <= k < |s.windows| && OpenSince(s.windows[k], d, t) { assert Opens(s, k, d, t); }
    if k: nat, d :| Opens(s, k, d, t) && Length(s.windows[k]) > 0 {
      assert OpenSince(s.windows[k], d, t);
    }
  }

  /** A window is empty only from 00:00 to 00:00; equal times otherwise mean a full day. */
  lemma EmptyOnlyAtMidnight(w: Window)
    requires Parsed(w)
    ensures Length(w) == 0 <==> w.start == 0 && w.end == 0
    ensures w.start == w.end != 0 ==> Length(w) == 1440
  {
  }

  lemma MidnightWindowNeverOpens(now: int, t: int)
    ensures var s := Scheduler([Window({0, 1, 2, 3, 4, 5, 6}, 0, 0)], 0, 1, false);
            && Valid(s) && !InWindow(s, t)
            && exists r :: Earliest(s, 1, now, r) && r.Some?
  {
    var w := Window({0, 1, 2, 3, 4, 5, 6}, 0, 0);
    var s := Scheduler([w], 0, 1, false);
    var d := DayOf(now) + 1;
    assert Parsed(w);
    assert Configured(w, d) && Configured(w, d - 1);
    MinuteIsFloor(now, 0);
    FoundIsNext(w, now, d);
    assert Opens(s, 0, d, Opening(w, d));
    assert Earliest(s, 1, now, Some(Opening(w, d)));
  }
}
