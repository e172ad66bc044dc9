/**
 * Work-day calendar arithmetic (stackpm/workdays.py): a calendar of work
 * dates — the weekdays of a work week, minus excluded dates, bounded by a
 * start and a stop — and the two spreadsheet-style functions built on it,
 * `net_workdays` (NETWORKDAYS) and `workday` (WORKDAY).
 *
 * Dates are whole days numbered so that day 0 is a Monday: the weekday of
 * day `d` is `d % 7`, 0 being Monday (Python's `date.toordinal() - 1`).
 */
module Workdays {
  import opened Common

  type Day = int

  datatype Weekday = MO | TU | WE | TH | FR | SA | SU

  /** DEFAULT_WEEK: Monday to Friday. */
  const DefaultWeek: seq<Weekday> := [MO, TU, WE, TH, FR]

  function WeekdayIndex(w: Weekday): (i: nat)
    ensures i < 7
  {
    match w
    case MO => 0 case TU => 1 case WE => 2 case TH => 3
    case FR => 4 case SA => 5 case SU => 6
  }

  /** The weekday of a day number. */
  function WeekdayOf(d: Day): (w: Weekday)
    ensures WeekdayIndex(w) == d % 7
  {
    var i := d % 7;
    if i == 0 then MO else if i == 1 then TU else if i == 2 then WE
    else if i == 3 then TH else if i == 4 then FR else if i == 5 then SA
    else SU
  }

  /**
   * `_ruleset`: the weekdays of the base work calendar. A week argument
   * that names at least one weekday wins; otherwise the configured
   * `work.days` is used whenever that key exists (even when it is empty);
   * otherwise DEFAULT_WEEK.
   */
  function Ruleset(week: seq<Weekday>, configDays: Option<seq<Weekday>>): (r: seq<Weekday>)
    ensures |week| > 0 ==> r == week
    ensures |week| == 0 && configDays.Some? ==> r == configDays.value
    ensures |week| == 0 && configDays.None? ==> r == DefaultWeek
  {
    if |week| > 0 then week
    else match configDays
      case Some(days) => days
      case None => DefaultWeek
  }

  /**
   * Whether a day falls on the work week. A week that names no weekday
   * reaches the daily rule as an empty `byweekday` list, which restricts
   * nothing: every day is then on the week.
   */
  predicate OnWeek(week: seq<Weekday>, d: Day)
  {
    |week| == 0 || WeekdayOf(d) in week
  }

  /** A work calendar, as described by `workday_calendar`. */
  datatype Calendar = Calendar(week: seq<Weekday>, start: Option<Day>,
                               stop: Option<Day>, excludes: set<Day>)
  {
    /** Whether `d` is a work date of this calendar. */
    predicate Contains(d: Day)
    {
      && OnWeek(week, d)
      && (start.None? || start.value <= d)
      && (stop.None? || d <= stop.value)
      && d !in excludes
    }
  }

  /**
   * `workday_calendar`: the work week of `_ruleset`, from `start` (today
   * when absent, as documented) up to `stop` (unbounded when absent), less
   * the `excludes` dates.
   */
  function WorkdayCalendar(start: Option<Day>, stop: Option<Day>, excludes: set<Day>,
                           week: seq<Weekday>, configDays: Option<seq<Weekday>>,
                           today: Day): (cal: Calendar)
    ensures forall d :: cal.Contains(d) <==>
      && OnWeek(Ruleset(week, configDays), d)
      && (if start.Some? then start.value <= d else today <= d)
      && (stop.None? || d <= stop.value)
      && d !in excludes
  {
    Calendar(Ruleset(week, configDays),
             Some(if start.Some? then start.value else today), stop, excludes)
  }

  /**
   * The work dates of `cal` in `[lo, hi]`, both ends included, in
   * increasing order: `rruleset.between(lo, hi, inc=True)`.
   */
  function WorkDates(cal: Calendar, lo: Day, hi: Day): (s: seq<Day>)
    decreases hi - lo + 1
  {
    if hi < lo then []
    else WorkDates(cal, lo, hi - 1) + (if cal.Contains(hi) then [hi] else [])
  }

  /** `net_workdays`: the number of work dates in `[start, stop]`, at least 1. */
  function NetWorkdays(start: Day, stop: Day, excludes: set<Day>,
                       week: seq<Weekday>, configDays: Option<seq<Weekday>>): (n: nat)
    ensures n >= 1
  {
    var cal := WorkdayCalendar(Some(start), Some(stop), excludes, week, configDays, start);
    var count := |WorkDates(cal, start, stop)|;
    if count == 0 then 1 else count
  }

  /** `days - 1` clamped at 0: the index `workday` looks up. */
  function WorkdayIndexOf(days: int): (k: nat)
    ensures days >= 1 ==> k == days - 1
    ensures days <= 1 ==> k == 0
  {
    if days > 1 then days - 1 else 0
  }

  /** `workday`: the work date at index `max(days - 1, 0)` of the calendar from `start`. */
  function Workday(start: Day, days: int, excludes: set<Day>,
                   week: seq<Weekday>, configDays: Option<seq<Weekday>>): (r: Day)
    ensures r >= start && r !in excludes && OnWeek(Ruleset(week, configDays), r)
  {
    var cal := WorkdayCalendar(Some(start), None, excludes, week, configDays, start);
    NthFrom(cal, start, WorkdayIndexOf(days))
  }

  // ---------------------------------------------------------------------
  // Searching an unbounded calendar

  /** An upper bound of a finite set of days. */
  ghost function Ceiling(s: set<Day>): (m: Day)
    ensures forall y :: y in s ==> y <= m
  {
    if s == {} then 0
    else
      Inhabited(s);
      var x :| x in s;
      assert forall y :: y in s ==> y == x || y in s - {x};
      Max(x, Ceiling(s - {x}))
  }

  lemma Inhabited(s: set<Day>)
    requires s != {}
    ensures exists x :: x in s
  {
    if forall x :: x !in s {
      assert false;
    }
  }

  lemma DayOnWeekday(b: Day, w: Weekday)
    ensures b <= b + (WeekdayIndex(w) - b) % 7
    ensures WeekdayOf(b + (WeekdayIndex(w) - b) % 7) == w
  {
    var i := WeekdayIndex(w);
    var q, r := (i - b) / 7, (i - b) % 7;
    assert i - b == 7 * q + r;
    assert (b + r) == i + 7 * (-q);
    assert (i + 7 * (-q)) % 7 == i;
    var v := WeekdayOf(b + r);
    assert WeekdayIndex(v) == i;
  }

  /** A calendar without a stop has a work date on or after any day. */
  lemma WorkdateAhead(cal: Calendar, d: Day)
    requires cal.stop.None?
    ensures exists w :: w >= d && cal.Contains(w)
  {
    var lo := if cal.start.Some? then Max(d, cal.start.value) else d;
    var b := Max(lo, Ceiling(cal.excludes) + 1);
    if |cal.week| == 0 {
      assert cal.Contains(b);
    } else {
      DayOnWeekday(b, cal.week[0]);
      var w := b + (WeekdayIndex(cal.week[0]) - b) % 7;
      assert cal.Contains(w);
    }
  }

  /** Some work date on or after `d` of a calendar without a stop. */
  ghost function Witness(cal: Calendar, d: Day): (w: Day)
    requires cal.stop.None?
    ensures w >= d && cal.Contains(w)
  {
    WorkdateAhead(cal, d);
    var w :| w >= d && cal.Contains(w);
    w
  }

  /** The first work date of `cal` on or after `d`, given one (`w`) that exists. */
  function FirstFrom(cal: Calendar, d: Day, ghost w: Day): (r: Day)
    requires d <= w && cal.Contains(w)
    ensures d <= r <= w && cal.Contains(r)
    ensures forall x :: d <= x < r ==> !cal.Contains(x)
    decreases w - d
  {
    if cal.Contains(d) then d else FirstFrom(cal, d + 1, w)
  }

  /** The work date at index `k` among those of `cal` on or after `d`. */
  function NthFrom(cal: Calendar, d: Day, k: nat): (r: Day)
    requires cal.stop.None?
    ensures r >= d && cal.Contains(r)
    decreases k
  {
    var first := FirstFrom(cal, d, Witness(cal, d));
    if k == 0 then first else NthFrom(cal, first + 1, k - 1)
  }

  // ---------------------------------------------------------------------
  // Lemmas about WorkDates

  /** The work dates of `[lo, hi]` are exactly the days of `[lo, hi]` in the calendar. */
  lemma {:induction false} WorkDatesMembers(cal: Calendar, lo: Day, hi: Day)
    ensures forall x :: x in WorkDates(cal, lo, hi) <==> lo <= x <= hi && cal.Contains(x)
    decreases hi - lo + 1
  {
    if hi >= lo {
      WorkDatesMembers(cal, lo, hi - 1);
    }
  }

  /** The work dates of `[lo, hi]` are listed in strictly increasing order. */
  lemma {:induction false} WorkDatesIncreasing(cal: Calendar, lo: Day, hi: Day)
    ensures forall i, j :: 0 <= i < j < |WorkDates(cal, lo, hi)| ==>
              WorkDates(cal, lo, hi)[i] < WorkDates(cal, lo, hi)[j]
    decreases hi - lo + 1
  {
    if hi >= lo {
      var earlier := WorkDates(cal, lo, hi - 1);
      WorkDatesIncreasing(cal, lo, hi - 1);
      WorkDatesMembers(cal, lo, hi - 1);
      var s := WorkDates(cal, lo, hi);
      assert s == earlier + (if cal.Contains(hi) then [hi] else []);
      forall i, j | 0 <= i < j < |s|
        ensures s[i] < s[j]
      {
        assert s[i] == earlier[i] && earlier[i] in earlier;
        if j == |earlier| {
          assert earlier[i] <= hi - 1;
          assert s[j] == hi;
        } else {
          assert earlier[i] < earlier[j];
          assert s[j] == earlier[j];
        }
      }
    }
  }

  lemma {:induction false} WorkDatesNone(cal: Calendar, lo: Day, hi: Day)
    requires forall x :: lo <= x <= hi ==> !cal.Contains(x)
    ensures WorkDates(cal, lo, hi) == []
    decreases hi - lo + 1
  {
    if hi >= lo {
      WorkDatesNone(cal, lo, hi - 1);
    }
  }

  /** The work dates of `[lo, hi]` are those of `[lo, m]` followed by those of `[m + 1, hi]`. */
  lemma {:induction false} WorkDatesSplit(cal: Calendar, lo: Day, m: Day, hi: Day)
    requires lo - 1 <= m <= hi
    ensures WorkDates(cal, lo, hi) == WorkDates(cal, lo, m) + WorkDates(cal, m + 1, hi)
    decreases hi - m
  {
    if hi == m {
      assert WorkDates(cal, m + 1, hi) == [];
    } else {
      WorkDatesSplit(cal, lo, m, hi - 1);
      var tail := if cal.Contains(hi) then [hi] else [];
      assert WorkDates(cal, m + 1, hi) == WorkDates(cal, m + 1, hi - 1) + tail;
    }
  }

  /** Two calendars that agree on `[lo, hi]` have the same work dates there. */
  lemma {:induction false} WorkDatesAgree(c1: Calendar, c2: Calendar, lo: Day, hi: Day)
    requires forall x :: lo <= x <= hi ==> (c1.Contains(x) <==> c2.Contains(x))
    ensures WorkDates(c1, lo, hi) == WorkDates(c2, lo, hi)
    decreases hi - lo + 1
  {
    if hi >= lo {
      WorkDatesAgree(c1, c2, lo, hi - 1);
    }
  }

  /** Excluding one more date `x` removes exactly that date from the work dates, if it was one. */
  lemma {:induction false} WorkDatesExcluding(cal: Calendar, x: Day, lo: Day, hi: Day)
    ensures |WorkDates(cal.(excludes := cal.excludes + {x}), lo, hi)|
         == |WorkDates(cal, lo, hi)| - (if lo <= x <= hi && cal.Contains(x) then 1 else 0)
    decreases hi - lo + 1
  {
    if hi >= lo {
      WorkDatesExcluding(cal, x, lo, hi - 1);
    }
  }

  /** A strictly increasing sequence has as many elements as its set of elements. */
  lemma {:induction false} IncreasingCard(s: seq<Day>)
    requires forall i, j :: 0 <= i < j < |s| ==> s[i] < s[j]
    ensures |(set x | x in s)| == |s|
  {
    if s != [] {
      IncreasingCard(s[1..]);
      assert (set x | x in s) == {s[0]} + (set x | x in s[1..]);
      assert s[0] !in (set x | x in s[1..]);
    }
  }

  // ---------------------------------------------------------------------
  // net_workdays

  /**
   * NETWORKDAYS as a count: the number of days of `[start, stop]` that lie
   * on the work week and are not excluded, or 1 when there is none.
   */
  lemma NetWorkdaysCounts(start: Day, stop: Day, excludes: set<Day>,
                          week: seq<Weekday>, configDays: Option<seq<Weekday>>)
    ensures var days := set d | start <= d <= stop
                                && OnWeek(Ruleset(week, configDays), d) && d !in excludes;
            NetWorkdays(start, stop, excludes, week, configDays)
              == if |days| == 0 then 1 else |days|
  {
    var cal := WorkdayCalendar(Some(start), Some(stop), excludes, week, configDays, start);
    var s := WorkDates(cal, start, stop);
    var days := set d | start <= d <= stop
                        && OnWeek(Ruleset(week, configDays), d) && d !in excludes;
    WorkDatesMembers(cal, start, stop);
    WorkDatesIncreasing(cal, start, stop);
    assert days == (set x | x in s);
    IncreasingCard(s);
  }

  /** With no work date in `[start, stop]` (in particular when `stop < start`) the count is 1. */
  lemma NetWorkdaysFloor(start: Day, stop: Day, excludes: set<Day>,
                         week: seq<Weekday>, configDays: Option<seq<Weekday>>)
    requires forall d :: start <= d <= stop ==>
               !OnWeek(Ruleset(week, configDays), d) || d in excludes
    ensures NetWorkdays(start, stop, excludes, week, configDays) == 1
  {
    var cal := WorkdayCalendar(Some(start), Some(stop), excludes, week, configDays, start);
    WorkDatesNone(cal, start, stop);
  }

  /** A same-day interval counts as exactly one work day, whether or not the day is worked. */
  lemma SameDay(d: Day, excludes: set<Day>, week: seq<Weekday>, configDays: Option<seq<Weekday>>)
    ensures NetWorkdays(d, d, excludes, week, configDays) == 1
  {
    var cal := WorkdayCalendar(Some(d), Some(d), excludes, week, configDays, d);
    assert WorkDates(cal, d, d - 1) == [];
  }

  /**
   * Adding a date to `excludes` never increases `net_workdays`; when the date
   * was a counted work date and at least two were counted, it lowers the
   * count by exactly one.
   */
  lemma ExcludeOneMore(start: Day, stop: Day, excludes: set<Day>, x: Day,
                       week: seq<Weekday>, configDays: Option<seq<Weekday>>)
    ensures NetWorkdays(start, stop, excludes + {x}, week, configDays)
         <= NetWorkdays(start, stop, excludes, week, configDays)
    ensures var before := NetWorkdays(start, stop, excludes, week, configDays);
            start <= x <= stop && OnWeek(Ruleset(week, configDays), x) && x !in excludes
            && before >= 2
            ==> NetWorkdays(start, stop, excludes + {x}, week, configDays) == before - 1
  {
    var cal := WorkdayCalendar(Some(start), Some(stop), excludes, week, configDays, start);
    WorkDatesExcluding(cal, x, start, stop);
    assert cal.(excludes := cal.excludes + {x})
        == WorkdayCalendar(Some(start), Some(stop), excludes + {x}, week, configDays, start);
  }

  /** An excluded date, or a date off the work week, is never one of the counted work dates. */
  lemma NeverCounted(start: Day, stop: Day, excludes: set<Day>,
                     week: seq<Weekday>, configDays: Option<seq<Weekday>>, d: Day)
    requires d in excludes || !OnWeek(Ruleset(week, configDays), d)
    ensures d !in WorkDates(WorkdayCalendar(Some(start), Some(stop), excludes, week,
                                            configDays, start), start, stop)
  {
    WorkDatesMembers(WorkdayCalendar(Some(start), Some(stop), excludes, week, configDays, start),
                     start, stop);
  }

  /**
   * The spreadsheet example: Monday 2024-01-01 (day 738885) to the
   * following Monday, with Wednesday 2024-01-03 excluded, on the default
   * week: five work days.
   */
  lemma NewYearWeek()
    ensures WeekdayOf(738885) == MO
    ensures NetWorkdays(738885, 738892, {738887}, [], None) == 5
    ensures NetWorkdays(738885, 738885, {}, [], None) == 1
  {
    var cal := WorkdayCalendar(Some(738885), Some(738892), {738887}, [], None, 738885);
    assert WorkDates(cal, 738885, 738884) == [];
    assert WorkDates(cal, 738885, 738885) == [738885];
    assert WorkDates(cal, 738885, 738886) == [738885, 738886];
    assert WorkDates(cal, 738885, 738887) == [738885, 738886];
    assert WorkDates(cal, 738885, 738888) == [738885, 738886, 738888];
    assert WorkDates(cal, 738885, 738889) == [738885, 738886, 738888, 738889];
    assert WorkDates(cal, 738885, 738890) == [738885, 738886, 738888, 738889];
    assert WorkDates(cal, 738885, 738891) == [738885, 738886, 738888, 738889];
    assert WorkDates(cal, 738885, 738892) == [738885, 738886, 738888, 738889, 738892];
    SameDay(738885, {}, [], None);
  }

  /**
   * `net_workdays` as written: the calendar is a union of rules, and the
   * daily rule added for `start` yields every day from `start` on, so
   * `between(start, stop)` returns every day of `[start, stop]` that is not
   * excluded, whatever the work week.
   */
  function NetWorkdaysAsWritten(start: Day, stop: Day, excludes: set<Day>,
                                week: seq<Weekday>, configDays: Option<seq<Weekday>>): (n: nat)
    ensures n >= 1
  {
    var count := |WorkDates(Calendar([], Some(start), Some(stop), excludes), start, stop)|;
    if count == 0 then 1 else count
  }

  /** As written, the count is the one of a work week naming no weekday: every day counts. */
  lemma AsWrittenIgnoresWeek(start: Day, stop: Day, excludes: set<Day>,
                             week: seq<Weekday>, configDays: Option<seq<Weekday>>)
    ensures NetWorkdaysAsWritten(start, stop, excludes, week, configDays)
         == NetWorkdays(start, stop, excludes, [], Some([]))
  {
    var cal := WorkdayCalendar(Some(start), Some(stop), excludes, [], Some([]), start);
    WorkDatesAgree(Calendar([], Some(start), Some(stop), excludes), cal, start, stop);
  }

  /**
   * Friday 2024-01-05 (day 738889) to Monday 2024-01-08 on the default
   * week: as written four days are counted, the weekend included; the
   * calendar's work week counts two.
   */
  lemma WeekendCounted()
    ensures NetWorkdaysAsWritten(738889, 738892, {}, [], None) == 4
    ensures NetWorkdays(738889, 738892, {}, [], None) == 2
  {
    var all := Calendar([], Some(738889), Some(738892), {});
    assert WorkDates(all, 738889, 738888) == [];
    assert WorkDates(all, 738889, 738889) == [738889];
    assert WorkDates(all, 738889, 738890) == [738889, 738890];
    assert WorkDates(all, 738889, 738891) == [738889, 738890, 738891];
    assert WorkDates(all, 738889, 738892) == [738889, 738890, 738891, 738892];
    var cal := WorkdayCalendar(Some(738889), Some(738892), {}, [], None, 738889);
    assert WorkDates(cal, 738889, 738888) == [];
    assert WorkDates(cal, 738889, 738889) == [738889];
    assert WorkDates(cal, 738889, 738890) == [738889];
    assert WorkDates(cal, 738889, 738891) == [738889];
    assert WorkDates(cal, 738889, 738892) == [738889, 738892];
  }

  // ---------------------------------------------------------------------
  // workday

  /** The work dates from `d` up to the first one on or after `d` are just that one. */
  lemma FirstDates(cal: Calendar, d: Day)
    requires cal.stop.None?
    ensures var first := FirstFrom(cal, d, Witness(cal, d));
            WorkDates(cal, d, first) == [first]
  {
    var first := FirstFrom(cal, d, Witness(cal, d));
    WorkDatesNone(cal, d, first - 1);
    assert cal.Contains(first);
  }

  /** The work dates from `d` are the first of them followed by those after it. */
  lemma ConsDates(cal: Calendar, d: Day, r: Day)
    requires cal.stop.None?
    requires FirstFrom(cal, d, Witness(cal, d)) <= r
    ensures var first := FirstFrom(cal, d, Witness(cal, d));
            WorkDates(cal, d, r) == [first] + WorkDates(cal, first + 1, r)
  {
    var first := FirstFrom(cal, d, Witness(cal, d));
    FirstDates(cal, d);
    WorkDatesSplit(cal, d, first, r);
  }

  /** NthFrom(cal, d, k) is the element at index `k` of the work dates on or after `d`. */
  lemma {:induction false} NthFromIsIndex(cal: Calendar, d: Day, k: nat)
    requires cal.stop.None?
    ensures var r := NthFrom(cal, d, k);
            |WorkDates(cal, d, r)| == k + 1 && WorkDates(cal, d, r)[k] == r
    decreases k
  {
    var first := FirstFrom(cal, d, Witness(cal, d));
    if k == 0 {
      assert NthFrom(cal, d, 0) == first;
      FirstDates(cal, d);
    } else {
      var r := NthFrom(cal, first + 1, k - 1);
      NthFromIsIndex(cal, first + 1, k - 1);
      ConsDates(cal, d, r);
    }
  }

  /**
   * `workday(start, n)` is the element at index `max(n - 1, 0)` of the work
   * dates on or after `start`; for `n <= 1` it is the first of them.
   */
  lemma WorkdayIsIndex(start: Day, n: int, excludes: set<Day>,
                       week: seq<Weekday>, configDays: Option<seq<Weekday>>)
    ensures var r := Workday(start, n, excludes, week, configDays);
            var cal := WorkdayCalendar(Some(start), None, excludes, week, configDays, start);
            var k := WorkdayIndexOf(n);
            |WorkDates(cal, start, r)| == k + 1 && WorkDates(cal, start, r)[k] == r
    ensures n <= 1 ==>
            forall x :: start <= x < Workday(start, n, excludes, week, configDays) ==>
              !OnWeek(Ruleset(week, configDays), x) || x in excludes
  {
    var cal := WorkdayCalendar(Some(start), None, excludes, week, configDays, start);
    var k := WorkdayIndexOf(n);
    NthFromIsIndex(cal, start, k);
    if n <= 1 {
      assert Workday(start, n, excludes, week, configDays)
          == FirstFrom(cal, start, Witness(cal, start));
    }
  }

  /** For `n >= 1`, counting the work days from `start` to `workday(start, n)` gives back `n`. */
  lemma NetWorkdaysOfWorkday(start: Day, n: int, excludes: set<Day>,
                             week: seq<Weekday>, configDays: Option<seq<Weekday>>)
    requires n >= 1
    ensures NetWorkdays(start, Workday(start, n, excludes, week, configDays),
                        excludes, week, configDays) == n
  {
    var r := Workday(start, n, excludes, week, configDays);
    var open := WorkdayCalendar(Some(start), None, excludes, week, configDays, start);
    var closed := WorkdayCalendar(Some(start), Some(r), excludes, week, configDays, start);
    WorkdayIsIndex(start, n, excludes, week, configDays);
    WorkDatesAgree(open, closed, start, r);
  }
}
