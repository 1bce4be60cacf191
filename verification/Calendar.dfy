/**
 * The business-hours calendar (backend/src/api/sla/calendar.py).
 *
 * One local timeline, counted in microseconds from a Monday midnight.  A day is open during one
 * window, the same on every business day.
 */
module Calendar {
  import opened Results

  const HOUR: int := 3_600_000_000
  const DAY: int := 86_400_000_000

  /** The guard of the day loop: 366 * 5 days. */
  const MAX_DAYS: int := 1830

  datatype CalendarError = EmptyBusinessDays | BadWindow | NegativeSeconds | BeyondHorizon

  /** Weekdays count from Monday = 0; numbers outside 0..6 are accepted and never match a day. */
  datatype BusinessCalendar = BusinessCalendar(openHour: int, closeHour: int, businessDays: set<int>) {

    predicate Valid() {
      businessDays != {} && 0 <= openHour < closeHour <= 24
    }

    predicate IsBusinessDay(day: int) {
      day % 7 in businessDays
    }

    /** Whether the microsecond that starts at `t` is inside an open window. */
    predicate IsOpen(t: int) {
      IsBusinessDay(t / DAY) && openHour * HOUR <= t % DAY < closeHour * HOUR
    }

    /** Business time in [lo, hi): the number of open microseconds, one by one. */
    ghost function BusinessTime(lo: int, hi: int): nat
      decreases hi - lo
    {
      if hi <= lo then 0 else (if IsOpen(lo) then 1 else 0) + BusinessTime(lo + 1, hi)
    }

    /** The midnight after the last day the loop looks at. */
    function Horizon(start: int): int {
      (start / DAY + MAX_DAYS) * DAY
    }

    /** `t` is the least instant by which `ticks` of business time have passed; for no time at all,
        the least open instant. */
    ghost predicate IsDeadline(start: int, ticks: int, t: int) {
      && start <= t
      && if ticks > 0 then
           && BusinessTime(start, t) == ticks
           && forall u :: start <= u < t ==> BusinessTime(start, u) != ticks
         else
           && IsOpen(t)
           && forall u :: start <= u < t ==> !IsOpen(u)
    }

    /** What `AddBusinessSeconds` must answer. */
    ghost function Deadline(start: int, ticks: int): Result<int, CalendarError>
      requires Valid()
    {
      if ticks < 0 then
        Failure(NegativeSeconds)
      else if BusinessTime(start, Horizon(start)) < Max(1, ticks) then
        Failure(BeyondHorizon)
      else
        DeadlineExists(start, ticks, Horizon(start));
        var t :| IsDeadline(start, ticks, t);
        Success(t)
    }

    // ---- The measure ----

    lemma {:induction false} Split(lo: int, mid: int, hi: int)
      requires lo <= mid <= hi
      ensures BusinessTime(lo, hi) == BusinessTime(lo, mid) + BusinessTime(mid, hi)
      decreases mid - lo
    {
      if lo < mid {
        Split(lo + 1, mid, hi);
      }
    }

    lemma {:induction false} Grows(lo: int, mid: int, hi: int)
      requires lo <= mid <= hi
      ensures BusinessTime(lo, mid) <= BusinessTime(lo, hi) <= BusinessTime(lo, mid) + hi - mid
    {
      Split(lo, mid, hi);
      AtMost(mid, hi);
    }

    lemma {:induction false} AtMost(lo: int, hi: int)
      requires lo <= hi
      ensures BusinessTime(lo, hi) <= hi - lo
      decreases hi - lo
    {
      if lo < hi {
        AtMost(lo + 1, hi);
      }
    }

    lemma {:induction false} AllOpen(lo: int, hi: int)
      requires lo <= hi
      requires forall u :: lo <= u < hi ==> IsOpen(u)
      ensures BusinessTime(lo, hi) == hi - lo
      decreases hi - lo
    {
      if lo < hi {
        AllOpen(lo + 1, hi);
      }
    }

    lemma {:induction false} AllClosed(lo: int, hi: int)
      requires lo <= hi
      requires forall u :: lo <= u < hi ==> !IsOpen(u)
      ensures BusinessTime(lo, hi) == 0
      decreases hi - lo
    {
      if lo < hi {
        AllClosed(lo + 1, hi);
      }
    }

    lemma {:induction false} SomeOpen(lo: int, hi: int) returns (t: int)
      requires BusinessTime(lo, hi) >= 1
      ensures lo <= t < hi && IsOpen(t)
      ensures forall u :: lo <= u < t ==> !IsOpen(u)
      decreases hi - lo
    {
      if IsOpen(lo) {
        t := lo;
      } else {
        t := SomeOpen(lo + 1, hi);
      }
    }

    /** An instant just after an open microsecond is the least one with its business time. */
    lemma LastTickOpen(start: int, ticks: int, t: int)
      requires ticks > 0 && start < t && IsOpen(t - 1) && BusinessTime(start, t) == ticks
      ensures IsDeadline(start, ticks, t)
    {
      forall u | start <= u < t ensures BusinessTime(start, u) != ticks {
        Grows(start, u, t - 1);
        Split(start, t - 1, t);
        assert BusinessTime(t, t) == 0;
      }
    }

    /** ... and the other way round. */
    lemma DeadlineTickOpen(start: int, ticks: int, t: int)
      requires ticks > 0 && IsDeadline(start, ticks, t)
      ensures start < t && IsOpen(t - 1) && BusinessTime(start, t - 1) == ticks - 1
    {
      Split(start, t - 1, t);
      assert BusinessTime(t, t) == 0;
    }

    lemma {:induction false} DeadlineExists(start: int, ticks: int, end: int)
      requires ticks >= 0 && BusinessTime(start, end) >= Max(1, ticks)
      ensures exists t :: IsDeadline(start, ticks, t) && t <= end
      decreases end - start
    {
      if ticks == 0 {
        var t := SomeOpen(start, end);
        assert IsDeadline(start, ticks, t) && t <= end;
      } else {
        Split(start, end - 1, end);
        assert BusinessTime(end, end) == 0;
        if BusinessTime(start, end - 1) >= ticks {
          DeadlineExists(start, ticks, end - 1);
        } else {
          LastTickOpen(start, ticks, end);
        }
      }
    }

    lemma DeadlineUnique(start: int, ticks: int, t: int, t': int)
      requires IsDeadline(start, ticks, t) && IsDeadline(start, ticks, t')
      ensures t == t'
    {
    }

    // ---- One day of the loop ----

    lemma InDay(t: int, day: int)
      requires day * DAY <= t < day * DAY + DAY
      ensures t / DAY == day && t % DAY == t - day * DAY
    {
    }

    /** The moment the window of the day of `cursor` closes; hour 24 is the next midnight. */
    function CloseOf(cursor: int): (close: int)
      requires Valid()
      ensures close == cursor / DAY * DAY + closeHour * HOUR
      ensures cursor / DAY * DAY < close <= (cursor / DAY + 1) * DAY
    {
      if closeHour == 24 then
        (cursor / DAY + 1) * DAY
      else
        cursor / DAY * DAY + closeHour * HOUR
    }

    /** On a business day the window is open right before its close, and not at it before midnight. */
    lemma WindowCloses(cursor: int)
      requires Valid()
      ensures IsBusinessDay(cursor / DAY) ==> IsOpen(CloseOf(cursor) - 1)
      ensures CloseOf(cursor) < (cursor / DAY + 1) * DAY ==> !IsOpen(CloseOf(cursor))
    {
      var day, close := cursor / DAY, CloseOf(cursor);
      InDay(close - 1, day);
      if close < (day + 1) * DAY {
        InDay(close, day);
      }
    }

    /** The first instant of the day of `cursor`, not before `cursor`, at which the window may be open. */
    function FirstOf(cursor: int): int {
      Max(cursor, cursor / DAY * DAY + openHour * HOUR)
    }

    /** What is left of the day of `cursor`: closed until `first`, open until the close, closed again. */
    lemma RestOfDay(cursor: int)
      requires Valid() && IsBusinessDay(cursor / DAY)
      ensures forall u :: cursor <= u < FirstOf(cursor) && u < CloseOf(cursor) ==> !IsOpen(u)
      ensures forall u :: FirstOf(cursor) <= u < CloseOf(cursor) ==> IsOpen(u)
      ensures forall u :: CloseOf(cursor) <= u < (cursor / DAY + 1) * DAY ==> !IsOpen(u)
    {
      var day := cursor / DAY;
      forall u | day * DAY <= u < (day + 1) * DAY
        ensures u / DAY == day && u % DAY == u - day * DAY
      {
        InDay(u, day);
      }
    }

    lemma ClosedDay(cursor: int)
      requires !IsBusinessDay(cursor / DAY)
      ensures BusinessTime(cursor, (cursor / DAY + 1) * DAY) == 0
    {
      var day := cursor / DAY;
      forall u | cursor <= u < (day + 1) * DAY ensures !IsOpen(u) {
        InDay(u, day);
      }
      AllClosed(cursor, (day + 1) * DAY);
    }

    lemma DayTime(cursor: int)
      requires Valid() && IsBusinessDay(cursor / DAY)
      ensures BusinessTime(cursor, (cursor / DAY + 1) * DAY) == Max(0, CloseOf(cursor) - FirstOf(cursor))
    {
      var day, close, first := cursor / DAY, CloseOf(cursor), FirstOf(cursor);
      RestOfDay(cursor);
      if first < close {
        AllClosed(cursor, first);
        AllOpen(first, close);
        AllClosed(close, (day + 1) * DAY);
        Split(cursor, first, (day + 1) * DAY);
        Split(first, close, (day + 1) * DAY);
      } else {
        AllClosed(cursor, (day + 1) * DAY);
      }
    }

    lemma SpentToday(start: int, cursor: int, remaining: int)
      requires Valid() && IsBusinessDay(cursor / DAY) && start <= cursor
      requires 0 <= remaining <= CloseOf(cursor) - FirstOf(cursor)
      ensures BusinessTime(start, FirstOf(cursor)) == BusinessTime(start, cursor)
      ensures BusinessTime(start, FirstOf(cursor) + remaining) == BusinessTime(start, cursor) + remaining
    {
      var first := FirstOf(cursor);
      RestOfDay(cursor);
      AllClosed(cursor, first);
      AllOpen(first, first + remaining);
      Split(start, cursor, first);
      Split(start, first, first + remaining);
    }

    lemma NothingOpenYet(start: int, first: int)
      requires start <= first && BusinessTime(start, first) == 0
      ensures forall u :: start <= u < first ==> !IsOpen(u)
    {
      forall u | start <= u < first ensures !IsOpen(u) {
        if IsOpen(u) {
          AllOpen(u, u + 1);
          Split(start, u, u + 1);
          Split(start, u + 1, first);
        }
      }
    }

    /** Stopping inside today's window. */
    lemma StopToday(start: int, cursor: int, remaining: int)
      requires Valid() && IsBusinessDay(cursor / DAY) && start <= cursor
      requires 0 <= remaining <= CloseOf(cursor) - FirstOf(cursor) && FirstOf(cursor) < CloseOf(cursor)
      requires remaining == 0 ==> BusinessTime(start, cursor) == 0
      ensures IsDeadline(start, BusinessTime(start, cursor) + remaining, FirstOf(cursor) + remaining)
    {
      var first := FirstOf(cursor);
      RestOfDay(cursor);
      SpentToday(start, cursor, remaining);
      if remaining > 0 {
        LastTickOpen(start, BusinessTime(start, cursor) + remaining, first + remaining);
      } else {
        NothingOpenYet(start, first);
      }
    }

    lemma StopsInReach(start: int, cursor: int, remaining: int)
      requires Valid() && IsBusinessDay(cursor / DAY) && start <= cursor
      requires 0 <= remaining <= CloseOf(cursor) - FirstOf(cursor) && FirstOf(cursor) < CloseOf(cursor)
      ensures Max(1, BusinessTime(start, cursor) + remaining)
              <= BusinessTime(start, (cursor / DAY + 1) * DAY)
    {
      DayTime(cursor);
      Split(start, cursor, (cursor / DAY + 1) * DAY);
    }

    lemma Answered(start: int, ticks: int, t: int, midnight: int)
      requires Valid() && ticks >= 0 && IsDeadline(start, ticks, t)
      requires start <= midnight <= Horizon(start) && Max(1, ticks) <= BusinessTime(start, midnight)
      ensures Deadline(start, ticks) == Success(t)
    {
      Grows(start, midnight, Horizon(start));
      forall u | IsDeadline(start, ticks, u) ensures u == t {
        DeadlineUnique(start, ticks, u, t);
      }
    }

    lemma DaySpent(start: int, cursor: int)
      requires Valid() && start <= cursor
      ensures BusinessTime(start, (cursor / DAY + 1) * DAY) == BusinessTime(start, cursor)
              + if IsBusinessDay(cursor / DAY) then Max(0, CloseOf(cursor) - FirstOf(cursor)) else 0
    {
      if IsBusinessDay(cursor / DAY) {
        DayTime(cursor);
      } else {
        ClosedDay(cursor);
      }
      Split(start, cursor, (cursor / DAY + 1) * DAY);
    }

    /** The day loop: walk to the first open instant of each day and spend the rest of its window. */
    method AddBusinessSeconds(start: int, ticks: int) returns (r: Result<int, CalendarError>)
      requires Valid()
      ensures r == Deadline(start, ticks)
    {
      if ticks < 0 {
        return Failure(NegativeSeconds);
      }
      var cursor, remaining := start, ticks;
      for i := 0 to MAX_DAYS
        invariant start <= cursor && cursor / DAY == start / DAY + i
        invariant i > 0 ==> cursor == cursor / DAY * DAY
        invariant 0 <= remaining && BusinessTime(start, cursor) + remaining == ticks
        invariant remaining == 0 ==> ticks == 0
      {
        DaySpent(start, cursor);
        if IsBusinessDay(cursor / DAY) {
          var openAt := cursor / DAY * DAY + openHour * HOUR;
          var closeAt := CloseOf(cursor);
          var segmentStart := Max(cursor, openAt);
          if segmentStart < closeAt {
            var available := closeAt - segmentStart;
            if remaining <= available {
              StopToday(start, cursor, remaining);
              StopsInReach(start, cursor, remaining);
              Answered(start, ticks, segmentStart + remaining, (cursor / DAY + 1) * DAY);
              return Success(segmentStart + remaining);
            }
            remaining := remaining - available;
          }
        }
        cursor := (cursor / DAY + 1) * DAY;
      }
      return Failure(BeyondHorizon);
    }

    // ---- How far the loop reaches ----

    /** The business days that are weekdays at all. */
    function Weekdays(): set<int> {
      set d | d in businessDays && 0 <= d < 7
    }

    function WeekTicks(): int {
      |Weekdays()| * ((closeHour - openHour) * HOUR)
    }

    function WindowOf(day: int): int {
      if IsBusinessDay(day) then (closeHour - openHour) * HOUR else 0
    }

    lemma WholeDay(day: int)
      requires Valid()
      ensures BusinessTime(day * DAY, (day + 1) * DAY) == WindowOf(day)
    {
      InDay(day * DAY, day);
      BusinessTimeEmpty(day * DAY);
      DaySpent(day * DAY, day * DAY);
    }

    lemma BusinessTimeEmpty(t: int)
      ensures BusinessTime(t, t) == 0
    {
    }

    lemma OneWidthMore(count: nat, width: int)
      ensures (count + 1) * width == count * width + width
    {
    }

    /** The window is open as long per week as the set of weekdays has members. */
    lemma {:induction false} WeekdayCount(n: nat)
      requires n <= 7
      ensures |set d | d in businessDays && 0 <= d < n| * ((closeHour - openHour) * HOUR) == WindowSum(0, n)
    {
      if n > 0 {
        WeekdayCount(n - 1);
        var smaller := set d | d in businessDays && 0 <= d < n - 1;
        var all := set d | d in businessDays && 0 <= d < n;
        if n - 1 in businessDays {
          assert all == smaller + {n - 1};
          OneWidthMore(|smaller|, (closeHour - openHour) * HOUR);
        } else {
          assert all == smaller;
        }
      }
    }

    ghost function WindowSum(day: int, n: nat): int {
      if n == 0 then 0 else WindowSum(day, n - 1) + WindowOf(day + n - 1)
    }

    lemma {:induction false} WholeDays(day: int, n: nat)
      requires Valid()
      ensures BusinessTime(day * DAY, (day + n) * DAY) == WindowSum(day, n)
    {
      if n == 0 {
        BusinessTimeEmpty(day * DAY);
      } else {
        WholeDays(day, n - 1);
        WholeDay(day + n - 1);
        Split(day * DAY, (day + n - 1) * DAY, (day + n) * DAY);
      }
    }

    /** Shifting seven days by one trades a day for the same weekday a week later. */
    lemma {:induction false} ShiftedSum(day: int, n: nat)
      ensures WindowSum(day, n) + WindowOf(day + n) == WindowOf(day) + WindowSum(day + 1, n)
    {
      if n > 0 {
        ShiftedSum(day, n - 1);
      }
    }

    lemma SameWeekday(day: int)
      ensures WindowOf(day + 7) == WindowOf(day)
    {
      assert (day + 7) % 7 == day % 7;
    }

    lemma {:induction false} AnyWeek(day: int)
      ensures WindowSum(day, 7) == WindowSum(0, 7)
      decreases if day < 0 then -day else day
    {
      if day < 0 {
        AnyWeek(day + 1);
        SameWeekday(day);
        ShiftedSum(day, 7);
      } else if day > 0 {
        AnyWeek(day - 1);
        SameWeekday(day - 1);
        ShiftedSum(day - 1, 7);
      }
    }

    lemma WeekTime(day: int)
      requires Valid()
      ensures BusinessTime(day * DAY, (day + 7) * DAY) == WeekTicks()
    {
      WholeDays(day, 7);
      AnyWeek(day);
      WeekdayCount(7);
    }

    lemma {:induction false} WeeksTime(day: int, weeks: nat)
      requires Valid()
      ensures BusinessTime(day * DAY, (day + 7 * weeks) * DAY) == weeks * WeekTicks()
    {
      if weeks == 0 {
        BusinessTimeEmpty(day * DAY);
      } else {
        WeeksTime(day, weeks - 1);
        WeekTime(day + 7 * (weeks - 1));
        Split(day * DAY, (day + 7 * (weeks - 1)) * DAY, (day + 7 * weeks) * DAY);
        assert weeks * WeekTicks() == (weeks - 1) * WeekTicks() + WeekTicks();
      }
    }

    /** The loop never gives up on a duration that 261 full weeks can hold. */
    lemma FullWeeksNeverRaise(start: int, ticks: int)
      requires Valid() && ticks >= 0 && Max(1, ticks) <= 261 * WeekTicks()
      ensures Deadline(start, ticks).Success?
    {
      var tomorrow := start / DAY + 1;
      WeeksTime(tomorrow, 261);
      Split(start, tomorrow * DAY, Horizon(start));
      Split(tomorrow * DAY, (tomorrow + 7 * 261) * DAY, Horizon(start));
    }

    lemma AlwaysClosed(start: int, ticks: nat)
      requires Valid() && Weekdays() == {}
      ensures Deadline(start, ticks) == Failure(BeyondHorizon)
    {
      forall u ensures !IsOpen(u) {
        var weekday := u / DAY % 7;
        assert weekday !in Weekdays();
      }
      AllClosed(start, Horizon(start));
    }

    /** The loop gives up on every duration, even none at all, exactly if the business days are none of
        the seven weekdays. */
    lemma NoWeekdayAlwaysRaises(start: int)
      requires Valid()
      ensures Weekdays() == {} <==> forall ticks: nat :: Deadline(start, ticks) == Failure(BeyondHorizon)
    {
      if Weekdays() == {} {
        forall ticks: nat ensures Deadline(start, ticks) == Failure(BeyondHorizon) {
          AlwaysClosed(start, ticks);
        }
      } else {
        var width := (closeHour - openHour) * HOUR;
        assert |Weekdays()| >= 1;
        assert |Weekdays()| * width >= width;
        FullWeeksNeverRaise(start, 0);
        assert Deadline(start, 0) != Failure(BeyondHorizon);
      }
    }

    /** The weekdays count from Monday = 0, at midnight of which the timeline begins: a calendar open on one
        of them only first opens on that day. */
    lemma WeekBeginsOnMonday(weekday: int)
      requires Valid() && 0 <= weekday < 7 && businessDays == {weekday}
      ensures Deadline(0, 0) == Success((24 * weekday + openHour) * 3_600_000_000)
    {
      var t := weekday * DAY + openHour * HOUR;
      InDay(t, weekday);
      forall u | 0 <= u < t ensures !IsOpen(u) {
        if u >= weekday * DAY {
          InDay(u, weekday);
        }
      }
      DeadlineExact(0, 0, t);
    }

    // ---- The algebra of deadlines ----

    /** What a deadline means: `Deadline` answers `t` exactly for the least instant within reach. */
    lemma DeadlineExact(start: int, ticks: int, t: int)
      requires Valid() && ticks >= 0
      ensures Deadline(start, ticks) == Success(t)
              <==> IsDeadline(start, ticks, t) && t <= Horizon(start) && (ticks == 0 ==> t < Horizon(start))
    {
      if Deadline(start, ticks).Success? {
        var v := Deadline(start, ticks).value;
        if ticks == 0 {
          var first := SomeOpen(start, Horizon(start));
          DeadlineUnique(start, ticks, v, first);
        } else if v > Horizon(start) {
          Grows(start, Horizon(start), v - 1);
          DeadlineTickOpen(start, ticks, v);
        }
        if IsDeadline(start, ticks, t) {
          DeadlineUnique(start, ticks, v, t);
        }
      } else if IsDeadline(start, ticks, t) && t <= Horizon(start) {
        if ticks > 0 {
          Grows(start, t, Horizon(start));
        } else if t < Horizon(start) {
          AllOpen(t, t + 1);
          Split(start, t, Horizon(start));
          Split(t, t + 1, Horizon(start));
        }
      }
    }

    lemma AfterStart(start: int, ticks: int)
      requires Valid() && ticks > 0 && Deadline(start, ticks).Success?
      ensures Deadline(start, ticks).value > start
    {
      DeadlineTickOpen(start, ticks, Deadline(start, ticks).value);
    }

    /** What is left to spend after `a` is spent at `u` is spent at the same deadline. */
    lemma RestIsSpent(start: int, u: int, t: int, a: nat, b: int)
      requires b > 0 && start <= u < t && BusinessTime(start, u) == a && IsDeadline(start, a + b, t)
      ensures IsDeadline(u, b, t)
    {
      DeadlineTickOpen(start, a + b, t);
      Split(start, u, t);
      LastTickOpen(u, b, t);
    }

    lemma LaterHorizon(start: int, u: int)
      requires start <= u
      ensures Horizon(start) <= Horizon(u)
    {
    }

    lemma LessInReach(start: int, a: int, b: int)
      requires Valid() && 0 <= a <= b && Deadline(start, b).Success?
      ensures Deadline(start, a).Success?
    {
    }

    /** Spending `a` and then `b` is spending `a + b`, whenever the latter is within reach. */
    lemma AddTwice(start: int, a: int, b: int)
      requires Valid() && a >= 0 && b > 0 && Deadline(start, a + b).Success?
      ensures Deadline(start, a).Success?
      ensures Deadline(Deadline(start, a).value, b) == Deadline(start, a + b)
    {
      LessInReach(start, a, a + b);
      var u, t := Deadline(start, a).value, Deadline(start, a + b).value;
      DeadlineExact(start, a, u);
      DeadlineExact(start, a + b, t);
      SpentBy(start, a, u);
      Increasing(start, a, a + b);
      RestIsSpent(start, u, t, a, b);
      LaterHorizon(start, u);
      DeadlineExact(u, b, t);
    }

    lemma SpentBy(start: int, ticks: int, t: int)
      requires ticks >= 0 && IsDeadline(start, ticks, t)
      ensures BusinessTime(start, t) == ticks
    {
      if ticks == 0 {
        AllClosed(start, t);
      }
    }

    lemma Increasing(start: int, a: int, b: int)
      requires Valid() && 0 <= a < b && Deadline(start, a).Success? && Deadline(start, b).Success?
      ensures Deadline(start, a).value < Deadline(start, b).value
    {
      var u, t := Deadline(start, a).value, Deadline(start, b).value;
      SpentBy(start, a, u);
      if t <= u {
        Grows(start, t, u);
      }
    }

    lemma MonotoneInStart(start: int, later: int, ticks: int)
      requires Valid() && start <= later && ticks >= 0
      requires Deadline(start, ticks).Success? && Deadline(later, ticks).Success?
      ensures Deadline(start, ticks).value <= Deadline(later, ticks).value
    {
      var t, t' := Deadline(start, ticks).value, Deadline(later, ticks).value;
      if t' < t && ticks > 0 {
        DeadlineTickOpen(start, ticks, t);
        Split(start, later, t');
        Grows(start, t', t - 1);
      }
    }
  }

  /** The checks of the constructor, in their order. */
  function MakeCalendar(openHour: int, closeHour: int, businessDays: set<int>):
    (r: Result<BusinessCalendar, CalendarError>)
    ensures r.Success? <==> BusinessCalendar(openHour, closeHour, businessDays).Valid()
    ensures r.Success? ==> r.value == BusinessCalendar(openHour, closeHour, businessDays)
    ensures r == Failure(EmptyBusinessDays) <==> businessDays == {}
  {
    if businessDays == {} then
      Failure(EmptyBusinessDays)
    else if !(0 <= openHour < closeHour <= 24) then
      Failure(BadWindow)
    else
      Success(BusinessCalendar(openHour, closeHour, businessDays))
  }
}
