/** The office-hours evaluator: is an office open now, according to its
    schedule's weekly rules and date-specific exceptions, in the office's
    own time zone. */
module OfficeHours {
  import opened Common

  /** A time of day in seconds after midnight. */
  type Secs = s: nat | s < 86400

  datatype Weekday = Monday | Tuesday | Wednesday | Thursday | Friday | Saturday | Sunday

  /** A Time column as the database driver hands it back: not set, a time
      of day (a `timedelta`, so midnight is a false value), or text that
      the time parser rejects. */
  datatype TimeField = Unset | At(secs: Secs) | Malformed

  /** Python truthiness of a stored time: `timedelta(0)` is false. */
  predicate IsSet(f: TimeField)
  {
    match f
    case Unset => false
    case At(s) => s != 0
    case Malformed => true
  }

  datatype WeeklyRule = WeeklyRule(day: Weekday, start: TimeField, end: TimeField)

  datatype DateException = DateException(date: int, isWorkday: bool, start: TimeField, end: TimeField)

  /** A QMS Schedule: its rule rows and its exception rows, in stored order. */
  datatype Schedule = Schedule(rules: seq<WeeklyRule>, exceptions: seq<DateException>)

  /** The current instant in some zone: the local date (a day number), the
      local weekday and the local time of day. */
  datatype LocalTime = LocalTime(date: int, weekday: Weekday, secs: Secs)

  /** The exception rows of the schedule for one local date. */
  function ExceptionsOn(xs: seq<DateException>, date: int): (r: seq<DateException>)
    ensures forall e :: e in r <==> e in xs && e.date == date
  {
    if xs == [] then []
    else (if xs[0].date == date then [xs[0]] else []) + ExceptionsOn(xs[1..], date)
  }

  /** The weekly rule rows of the schedule for one weekday. */
  function RulesOn(rs: seq<WeeklyRule>, day: Weekday): (r: seq<WeeklyRule>)
    ensures forall w :: w in r <==> w in rs && w.day == day
  {
    if rs == [] then []
    else (if rs[0].day == day then [rs[0]] else []) + RulesOn(rs[1..], day)
  }

  /** Half-open interval membership `start <= t < end`, for two readable times. */
  predicate Covers(start: TimeField, end: TimeField, t: Secs)
  {
    start.At? && end.At? && start.secs <= t < end.secs
  }

  /** An exception row the evaluator looks at: a workday with both times set. */
  predicate Considered(e: DateException)
  {
    e.isWorkday && IsSet(e.start) && IsSet(e.end)
  }

  /** A considered exception whose time text cannot be parsed: evaluation fails. */
  predicate ExceptionFaults(e: DateException)
  {
    Considered(e) && (e.start.Malformed? || e.end.Malformed?)
  }

  /** A weekly rule whose start or end cannot be parsed (missing or garbage): evaluation fails. */
  predicate RuleFaults(r: WeeklyRule)
  {
    !r.start.At? || !r.end.At?
  }

  /** Some considered exception covers `t`, and no row before it made the evaluation fail. */
  predicate OpenByExceptions(xs: seq<DateException>, t: Secs)
  {
    exists k :: 0 <= k < |xs| && Considered(xs[k]) && Covers(xs[k].start, xs[k].end, t)
      && forall j :: 0 <= j < k ==> !ExceptionFaults(xs[j])
  }

  /** Some rule covers `t`, and no rule before it made the evaluation fail. */
  predicate OpenByRules(rs: seq<WeeklyRule>, t: Secs)
  {
    exists k :: 0 <= k < |rs| && Covers(rs[k].start, rs[k].end, t)
      && forall j :: 0 <= j < k ==> !RuleFaults(rs[j])
  }

  /** The verdict for a schedule at a local instant. Exceptions for the
      date take precedence: one non-workday row closes the day, otherwise
      the workday rows alone decide. Without exceptions the weekday's
      rules decide, OR-ed over shifts. A failure while reading a time is
      a closed verdict. */
  predicate OpenAt(s: Schedule, now: LocalTime)
  {
    var xs := ExceptionsOn(s.exceptions, now.date);
    if xs != [] then
      (forall e :: e in xs ==> e.isWorkday) && OpenByExceptions(xs, now.secs)
    else
      OpenByRules(RulesOn(s.rules, now.weekday), now.secs)
  }

  /** The zone the evaluator uses: the office's own when it is given and
      known, the system zone otherwise. */
  function ResolveZone(timezone: string, clock: map<string, LocalTime>, systemZone: string): string
  {
    if timezone != "" && timezone in clock then timezone else systemZone
  }

  /** A schedule name that names no document has no rows. */
  function ScheduleNamed(schedules: map<string, Schedule>, name: string): Schedule
  {
    if name in schedules then schedules[name] else Schedule([], [])
  }

  /** The verdict `is_office_open(schedule_name, timezone)` returns. */
  predicate OfficeOpen(scheduleName: string, timezone: string, schedules: map<string, Schedule>,
                       clock: map<string, LocalTime>, systemZone: string)
    requires systemZone in clock
  {
    scheduleName != ""
    && OpenAt(ScheduleNamed(schedules, scheduleName), clock[ResolveZone(timezone, clock, systemZone)])
  }

  /** `is_office_open`: the exception rows are scanned first (any
      non-workday closes; the first covering workday interval opens;
      otherwise closed), then, only when the date has no exception, the
      weekday's rules. */
  method IsOfficeOpen(scheduleName: string, timezone: string, schedules: map<string, Schedule>,
                      clock: map<string, LocalTime>, systemZone: string) returns (open: bool)
    requires systemZone in clock
    ensures scheduleName == "" ==> !open
    ensures open == OfficeOpen(scheduleName, timezone, schedules, clock, systemZone)
  {
    if scheduleName == "" {
      return false;
    }
    var zone := ResolveZone(timezone, clock, systemZone);
    var now := clock[zone];
    var t := now.secs;
    var schedule := ScheduleNamed(schedules, scheduleName);

    var exceptions := ExceptionsOn(schedule.exceptions, now.date);
    if |exceptions| > 0 {
      var i := 0;
      while i < |exceptions|
        invariant 0 <= i <= |exceptions|
        invariant forall j :: 0 <= j < i ==> exceptions[j].isWorkday
      {
        if !exceptions[i].isWorkday {
          return false;
        }
        i := i + 1;
      }
      i := 0;
      while i < |exceptions|
        invariant 0 <= i <= |exceptions|
        invariant forall j :: 0 <= j < i ==> !ExceptionFaults(exceptions[j])
        invariant forall j :: 0 <= j < i ==> !(Considered(exceptions[j]) && Covers(exceptions[j].start, exceptions[j].end, t))
      {
        var e := exceptions[i];
        if e.isWorkday && IsSet(e.start) && IsSet(e.end) {
          if e.start.Malformed? || e.end.Malformed? {
            // the time parser raises; the handler answers "closed"
            return false;
          }
          if e.start.secs <= t < e.end.secs {
            return true;
          }
        }
        i := i + 1;
      }
      // every row is a workday here, so the final `any(is_workday)` test holds
      assert exceptions[0].isWorkday;
      return false;
    }

    var rules := RulesOn(schedule.rules, now.weekday);
    if |rules| == 0 {
      return false;
    }
    var i := 0;
    while i < |rules|
      invariant 0 <= i <= |rules|
      invariant forall j :: 0 <= j < i ==> !RuleFaults(rules[j]) && !Covers(rules[j].start, rules[j].end, t)
    {
      var r := rules[i];
      if !r.start.At? || !r.end.At? {
        // the time parser raises; the handler answers "closed"
        return false;
      }
      if r.start.secs <= t < r.end.secs {
        return true;
      }
      i := i + 1;
    }
    return false;
  }

  // ---------------------------------------------------------------------
  // Properties of the verdict

  /** A non-workday exception closes the whole day, whatever the rules and the other exceptions say. */
  lemma NonWorkdayClosesDay(s: Schedule, now: LocalTime, e: DateException)
    requires e in s.exceptions && e.date == now.date && !e.isWorkday
    ensures !OpenAt(s, now)
  {
    assert e in ExceptionsOn(s.exceptions, now.date);
  }

  /** When the date has exceptions the weekly rules are never consulted:
      two schedules with the same exceptions agree, whatever their rules. */
  lemma ExceptionsReplaceRules(s1: Schedule, s2: Schedule, now: LocalTime)
    requires s1.exceptions == s2.exceptions
    requires ExceptionsOn(s1.exceptions, now.date) != []
    ensures OpenAt(s1, now) == OpenAt(s2, now)
  {
  }

  /** When every rule of the weekday is readable, the rules are OR-ed:
      open exactly when some shift `[start, end)` contains the time. */
  lemma {:induction false} ShiftsAreOred(rs: seq<WeeklyRule>, t: Secs)
    requires forall r :: r in rs ==> !RuleFaults(r)
    ensures OpenByRules(rs, t) <==> exists r :: r in rs && Covers(r.start, r.end, t)
  {
    if exists r :: r in rs && Covers(r.start, r.end, t) {
      var r :| r in rs && Covers(r.start, r.end, t);
      var k :| 0 <= k < |rs| && rs[k] == r;
      assert forall j :: 0 <= j < k ==> !RuleFaults(rs[j]) by {
        forall j | 0 <= j < k ensures !RuleFaults(rs[j]) {
          assert rs[j] in rs;
        }
      }
    }
  }

  /** When every considered exception row is readable, the workday
      exceptions are OR-ed in the same way. */
  lemma {:induction false} ExceptionWindowsAreOred(xs: seq<DateException>, t: Secs)
    requires forall e :: e in xs ==> !ExceptionFaults(e)
    ensures OpenByExceptions(xs, t) <==> exists e :: e in xs && Considered(e) && Covers(e.start, e.end, t)
  {
    if exists e :: e in xs && Considered(e) && Covers(e.start, e.end, t) {
      var e :| e in xs && Considered(e) && Covers(e.start, e.end, t);
      var k :| 0 <= k < |xs| && xs[k] == e;
      assert forall j :: 0 <= j < k ==> !ExceptionFaults(xs[j]) by {
        forall j | 0 <= j < k ensures !ExceptionFaults(xs[j]) {
          assert xs[j] in xs;
        }
      }
    }
  }

  /** A zone name that is empty or unknown behaves exactly like the system zone. */
  lemma BadZoneFallsBack(scheduleName: string, timezone: string, schedules: map<string, Schedule>,
                         clock: map<string, LocalTime>, systemZone: string)
    requires systemZone in clock
    requires timezone == "" || timezone !in clock
    ensures OfficeOpen(scheduleName, timezone, schedules, clock, systemZone)
            == OfficeOpen(scheduleName, systemZone, schedules, clock, systemZone)
  {
  }

  /** The interval edges of one shift 09:00-13:00 on a Wednesday: closed at
      08:59:59, open at 09:00:00 and 12:59:59, closed at 13:00:00. */
  lemma ShiftBoundaries(date: int)
    ensures var s := Schedule([WeeklyRule(Wednesday, At(9 * 3600), At(13 * 3600))], []);
            && !OpenAt(s, LocalTime(date, Wednesday, 9 * 3600 - 1))
            && OpenAt(s, LocalTime(date, Wednesday, 9 * 3600))
            && OpenAt(s, LocalTime(date, Wednesday, 13 * 3600 - 1))
            && !OpenAt(s, LocalTime(date, Wednesday, 13 * 3600))
  {
    var s := Schedule([WeeklyRule(Wednesday, At(9 * 3600), At(13 * 3600))], []);
    var rs := RulesOn(s.rules, Wednesday);
    assert rs == s.rules;
    assert Covers(rs[0].start, rs[0].end, 9 * 3600);
    assert Covers(rs[0].start, rs[0].end, 13 * 3600 - 1);
  }

  /** A workday exception 11:00-12:00 on a date whose weekday has a full
      shift: open at 11:30, closed at 12:30 although the rule would open. */
  lemma LimitedHoursException(date: int)
    ensures var s := Schedule([WeeklyRule(Wednesday, At(9 * 3600), At(18 * 3600))],
                              [DateException(date, true, At(11 * 3600), At(12 * 3600))]);
            && OpenAt(s, LocalTime(date, Wednesday, 11 * 3600 + 1800))
            && !OpenAt(s, LocalTime(date, Wednesday, 12 * 3600 + 1800))
  {
    var s := Schedule([WeeklyRule(Wednesday, At(9 * 3600), At(18 * 3600))],
                      [DateException(date, true, At(11 * 3600), At(12 * 3600))]);
    var xs := ExceptionsOn(s.exceptions, date);
    assert xs == [s.exceptions[0]] + ExceptionsOn(s.exceptions[1..], date);
    assert s.exceptions[1..] == [];
    assert Considered(xs[0]) && Covers(xs[0].start, xs[0].end, 11 * 3600 + 1800);
  }
}
