/** Presenting and changing a job's schedule (presentJob and PATCH /jobs/:id of apps/api/src/routes/adminCron.ts). */
module CronPatch {
  import opened Wrappers
  import opened CronZone
  import AsciiText
  import V = Values
  import Names

  const SCHEDULE_TYPES := {"DAILY", "WEEKLY", "MONTHLY", "INTERVAL", "ONCE"}
  const TIME_BASED_SCHEDULES := {"DAILY", "WEEKLY", "MONTHLY", "ONCE"}
  const DEFAULT_TIMEZONE := "Africa/Kampala"

  /** The columns of a cron_jobs row that a schedule consists of. */
  datatype Schedule = Schedule(
    kind: string, timezone: string, runTime: Option<string>,
    dayOfWeek: Option<int>, dayOfMonth: Option<int>, intervalMinutes: Option<int>)

  /** A cron_jobs row; `params` is a JSON text. */
  datatype Job = Job(
    name: string, description: Option<string>, params: Option<string>, enabled: bool, schedule: Schedule,
    nextRunAt: Option<int>)

  /** A field of the body: left out, null or empty, or given. */
  datatype Field<+T> = Absent | Cleared | Given(value: T)

  /** `params` of a body: left out or no object, which keeps the stored ones, or an object, null included. */
  datatype Params = Kept | Posted(json: Option<string>)

  /** The fields of a body that describe the job. */
  datatype About = About(name: Option<string>, description: Option<string>, params: Params)

  datatype Body = Body(
    about: About, enabled: Option<bool>, kind: Option<string>, timezone: Option<string>, runTime: Field<string>,
    dayOfWeek: Field<V.Number>, dayOfMonth: Field<V.Number>, intervalMinutes: Field<V.Number>, nextRunAt: Option<int>)

  datatype Failure =
    | BadKind | UnknownZone | BadRunTime | RunTimeRequired | BadDayOfWeek | BadDayOfMonth | BadInterval
    | WeeklyNeedsDay | MonthlyNeedsDay | Internal

  /** The time-zone database, the clock and the scheduler the route relies on. */
  datatype World = World(
    known: string -> bool, offset: (string, int) -> int, today: int, now: int, nextRun: Schedule -> int)

  function OffsetOf(w: World, zone: string): Offset { t => w.offset(zone, t) }

  /** slice(0, 5) */
  function First5(s: string): (r: string)
    ensures r <= s && |r| == if |s| < 5 then |s| else 5
  {
    if |s| <= 5 then s else s[..5]
  }

  /** The number a field states: its own, or the stored one when it is left out. */
  function Stated(f: Field<V.Number>, stored: Option<int>): Option<V.Number>
  {
    match f
    case Absent => (match stored case None => None case Some(n) => Some(V.Finite(n as real)))
    case Cleared => None
    case Given(n) => Some(n)
  }

  predicate IsInteger(n: V.Number) { n.Finite? && n.r == n.r.Floor as real }

  predicate IntegerIn(n: Option<V.Number>, lo: int, hi: int)
  {
    n.Some? ==> IsInteger(n.value) && lo <= n.value.r.Floor <= hi
  }

  function AsInt(n: Option<V.Number>): Option<int>
    requires n.Some? ==> n.value.Finite?
  {
    match n case None => None case Some(x) => Some(x.r.Floor)
  }

  /** The wall-clock time in force: the stored one restated in its zone, none, or the one given. */
  function StatedTime(s: Schedule, f: Field<string>, w: World): Result<Option<string>, Failure>
  {
    match f
    case Cleared => Ok(None)
    case Given(t) => Ok(Some(First5(t)))
    case Absent =>
      if s.runTime.None? then Ok(None)
      else if !w.known(s.timezone) || !TimeOfDay(First5(s.runTime.value)) then Err(Internal)
      else Ok(Some(UtcTimeToLocal(OffsetOf(w, s.timezone), w.today, First5(s.runTime.value))))
  }

  /** The checks on the whole schedule, in the route's order, and what is kept of it. */
  function Normalise(kind: string, zone: string, time: Option<string>, dow: Option<V.Number>, dom: Option<V.Number>,
                     interval: Option<V.Number>, w: World): Result<Schedule, Failure>
  {
    if time.Some? && !TimeOfDay(time.value) then Err(BadRunTime)
    else if time.None? && kind in TIME_BASED_SCHEDULES then Err(RunTimeRequired)
    else if !IntegerIn(dow, 1, 7) then Err(BadDayOfWeek)
    else if !IntegerIn(dom, 1, 31) then Err(BadDayOfMonth)
    else if interval.Some? && !(interval.value.Finite? && interval.value.r > 0.0) then Err(BadInterval)
    else if kind == "WEEKLY" && dow.None? then Err(WeeklyNeedsDay)
    else if kind == "MONTHLY" && dom.None? then Err(MonthlyNeedsDay)
    // interval_minutes is an integer column
    else if kind == "INTERVAL" && interval.Some? && !IsInteger(interval.value) then Err(Internal)
    else
      Ok(Schedule(
           kind, zone,
           if time.None? then None else Some(LocalTimeToUtc(OffsetOf(w, zone), w.today, time.value)),
           if kind == "WEEKLY" then AsInt(dow) else None,
           if kind == "MONTHLY" then AsInt(dom) else None,
           if kind == "INTERVAL" then AsInt(interval) else None))
  }

  function NewSchedule(s: Schedule, b: Body, w: World): Result<Schedule, Failure>
  {
    var kind := match b.kind case None => s.kind case Some(k) => Names.UpperCase(k);
    var zone := match b.timezone case None => s.timezone case Some(z) => AsciiText.Trim(z);
    if kind !in SCHEDULE_TYPES then Err(BadKind)
    else if !w.known(zone) then Err(UnknownZone)
    else
      match StatedTime(s, b.runTime, w)
      case Err(e) => Err(e)
      case Ok(time) =>
        Normalise(kind, zone, time, Stated(b.dayOfWeek, s.dayOfWeek), Stated(b.dayOfMonth, s.dayOfMonth),
                  Stated(b.intervalMinutes, s.intervalMinutes), w)
  }

  predicate Reschedules(b: Body)
  {
    b.kind.Some? || !b.runTime.Absent? || b.timezone.Some? || !b.dayOfWeek.Absent? || !b.dayOfMonth.Absent?
    || !b.intervalMinutes.Absent?
  }

  /** The pinned run if there is one; else a new one when the schedule moved or a stale job is switched on. */
  function NewNextRun(j: Job, b: Body, enabled: bool, s: Schedule, w: World): Option<int>
  {
    var stale := j.nextRunAt.None? || j.nextRunAt.value <= w.now;
    if b.nextRunAt.Some? then b.nextRunAt
    else if Reschedules(b) || (enabled && !j.enabled && stale) then Some(w.nextRun(s))
    else j.nextRunAt
  }

  function NewName(j: Job, a: About): string
  {
    match a.name case None => j.name case Some(n) => AsciiText.Trim(n)
  }

  function NewDescription(j: Job, a: About): Option<string>
  {
    if a.description.Some? then a.description else j.description
  }

  /** JSON.stringify(params ?? {}) */
  function NewParams(j: Job, a: About): string
  {
    (match a.params case Kept => j.params case Posted(p) => p).Or("{}")
  }

  function Patched(j: Job, b: Body, w: World): Result<Job, Failure>
  {
    var enabled := b.enabled.Or(j.enabled);
    match NewSchedule(j.schedule, b, w)
    case Err(e) => Err(e)
    case Ok(s) =>
      Ok(Job(NewName(j, b.about), NewDescription(j, b.about), Some(NewParams(j, b.about)), enabled, s,
             NewNextRun(j, b, enabled, s, w)))
  }

  // ------------------------------------------------------------------ presenting

  function Presented(s: Schedule, w: World): Schedule
  {
    if s.runTime.None? || !TimeOfDay(First5(s.runTime.value)) then s
    else
      var zone := if w.known(s.timezone) then s.timezone else DEFAULT_TIMEZONE;
      s.(runTime := Some(UtcTimeToLocal(OffsetOf(w, zone), w.today, First5(s.runTime.value))))
  }

  /** In a zone that is ahead by a constant a job is shown at its wall-clock time, and otherwise as it is stored. */
  lemma PresentedIsWallClock(s: Schedule, w: World, a: int)
    requires s.runTime.Some? && TimeOfDay(First5(s.runTime.value))
    requires ConstantOffset(OffsetOf(w, if w.known(s.timezone) then s.timezone else "Africa/Kampala"), w.today, a)
    ensures var shown := Presented(s, w).runTime;
            && Presented(s, w) == s.(runTime := shown) && shown.Some? && TimeOfDay(shown.value)
            && ParseTime(shown.value) == (ParseTime(First5(s.runTime.value)) + a) % 1440
  {
    var zone := if w.known(s.timezone) then s.timezone else "Africa/Kampala";
    var m := ParseTime(First5(s.runTime.value));
    WallClockIsAhead(OffsetOf(w, zone), w.today, m, a);
    FormatThenParse(UtcToLocal(OffsetOf(w, zone), w.today, m));
  }

  function AsField(n: Option<int>): Field<V.Number>
  {
    match n case None => Cleared case Some(x) => Given(V.Finite(x as real))
  }

  /** A client posts back the whole schedule it was shown. */
  function Resubmission(s: Schedule): Body
  {
    Body(About(None, None, Kept), None, Some(s.kind), Some(s.timezone),
         match s.runTime case None => Cleared case Some(t) => Given(t),
         AsField(s.dayOfWeek), AsField(s.dayOfMonth), AsField(s.intervalMinutes), None)
  }

  /** No zone the database knows has white space around its name. */
  ghost predicate ZonesAreTrimmed(w: World) { forall z :: w.known(z) ==> AsciiText.Trim(z) == z }

  /** Only what the schedule type reads is stored, and all of it is there. */
  predicate WellFormed(s: Schedule, w: World)
  {
    && s.kind in SCHEDULE_TYPES && w.known(s.timezone)
    && (s.runTime.Some? ==> TimeOfDay(s.runTime.value))
    && (s.kind in TIME_BASED_SCHEDULES ==> s.runTime.Some?)
    && (s.dayOfWeek.Some? <==> s.kind == "WEEKLY") && (s.dayOfWeek.Some? ==> 1 <= s.dayOfWeek.value <= 7)
    && (s.dayOfMonth.Some? <==> s.kind == "MONTHLY") && (s.dayOfMonth.Some? ==> 1 <= s.dayOfMonth.value <= 31)
    && (s.intervalMinutes.Some? ==> s.kind == "INTERVAL" && s.intervalMinutes.value > 0)
  }

  /** Whatever the row held before, a change that is accepted leaves a well-formed schedule. */
  lemma AcceptedChangeIsWellFormed(s: Schedule, b: Body, w: World)
    requires NewSchedule(s, b, w).Ok?
    ensures WellFormed(NewSchedule(s, b, w).value, w)
  {}

  lemma TimeIsShort(t: string)
    requires TimeOfDay(t)
    ensures First5(t) == t
  {}

  lemma UpperCaseKind(kind: string)
    requires kind in SCHEDULE_TYPES
    ensures Names.UpperCase(kind) == kind
  {
    assert forall i :: 0 <= i < |kind| ==> Names.IsUpper(kind[i]) by {
      assert kind == "DAILY" || kind == "WEEKLY" || kind == "MONTHLY" || kind == "INTERVAL" || kind == "ONCE";
    }
  }

  /**
   Posting back the schedule as presented is always accepted and can only move the stored time; it changes no schedule
   column at all exactly when the offset the time is shown with is the one it is saved with.
   */
  lemma ResubmissionChangesNothingIff(s: Schedule, w: World)
    requires WellFormed(s, w) && ZonesAreTrimmed(w)
    ensures var r := NewSchedule(s, Resubmission(Presented(s, w)), w);
            && r.Ok? && r.value == s.(runTime := r.value.runTime)
            && (r == Ok(s) <==>
                  (s.runTime.Some? ==> SavesBack(OffsetOf(w, s.timezone), w.today, ParseTime(s.runTime.value))))
  {
    hide LocalTimeToUtc, UtcTimeToLocal, ParseTime, SavesBack, ReadsBack, AsciiText.Trim, Names.UpperCase, TimeOfDay;
    UpperCaseKind(s.kind);
    if s.runTime.Some? {
      TimeIsShort(s.runTime.value);
      TimeIsShort(UtcTimeToLocal(OffsetOf(w, s.timezone), w.today, s.runTime.value));
      ConversionsAreInverseIff(OffsetOf(w, s.timezone), w.today, s.runTime.value);
    }
  }

  /** So nothing changes while the zone's offset stands still. */
  lemma ResubmissionChangesNothing(s: Schedule, w: World, a: int)
    requires WellFormed(s, w) && ZonesAreTrimmed(w) && ConstantOffset(OffsetOf(w, s.timezone), w.today, a)
    ensures NewSchedule(s, Resubmission(Presented(s, w)), w) == Ok(s)
  {
    ResubmissionChangesNothingIff(s, w);
    if s.runTime.Some? {
      ConversionsAreInverse(OffsetOf(w, s.timezone), w.today, s.runTime.value, a);
    }
  }

  /** On the day a clock goes back some time does move, as London shows. */
  lemma ResubmissionMovesInOctober(s: Schedule, w: World)
    requires WellFormed(s, w) && ZonesAreTrimmed(w) && s.runTime == Some("00:30") && w.today == 0
    requires OneChange(OffsetOf(w, s.timezone), 0, 60, 60, 0)
    ensures NewSchedule(s, Resubmission(Presented(s, w)), w) == Ok(s.(runTime := Some("01:30")))
  {
    hide LocalTimeToUtc, UtcTimeToLocal, ParseTime, SavesBack, ReadsBack, AsciiText.Trim;
    LondonText(OffsetOf(w, s.timezone));
    UpperCaseKind(s.kind);
  }

  /** Moving a job to another zone keeps the time the administrator sees exactly when it reads back there. */
  lemma ZoneChangeKeepsWallClockIff(s: Schedule, zone: string, w: World)
    requires WellFormed(s, w) && ZonesAreTrimmed(w) && w.known(zone)
    ensures var change := Body(About(None, None, Kept), None, None, Some(zone), Absent, Absent, Absent, Absent, None);
            var shown := Presented(s, w);
            var r := NewSchedule(s, change, w);
            && r.Ok? && Presented(r.value, w) == shown.(timezone := zone, runTime := Presented(r.value, w).runTime)
            && (Presented(r.value, w) == shown.(timezone := zone) <==>
                  (s.runTime.Some? ==> ReadsBack(OffsetOf(w, zone), w.today, ParseTime(shown.runTime.value))))
  {
    hide LocalTimeToUtc, UtcTimeToLocal, ParseTime, SavesBack, ReadsBack, AsciiText.Trim;
    if s.runTime.Some? {
      var shown := UtcTimeToLocal(OffsetOf(w, s.timezone), w.today, s.runTime.value);
      ConversionsAreInverseIff(OffsetOf(w, zone), w.today, shown);
    }
  }

  // ------------------------------------------------------------------ what an accepted change stores

  /** The kind that a body leads to is one of the five. */
  predicate KindAccepted(s: Schedule, b: Body)
  {
    (if b.kind.Some? then Names.UpperCase(b.kind.value) else s.kind) in
      {"DAILY", "WEEKLY", "MONTHLY", "INTERVAL", "ONCE"}
  }

  predicate ZoneAccepted(s: Schedule, b: Body, w: World)
  {
    w.known(if b.timezone.Some? then AsciiText.Trim(b.timezone.value) else s.timezone)
  }

  /** Every kind but an interval needs a time, and a stored time must be readable in its old zone. */
  predicate TimeAccepted(s: Schedule, b: Body, w: World)
  {
    var needed := (if b.kind.Some? then Names.UpperCase(b.kind.value) else s.kind) != "INTERVAL";
    match b.runTime
    case Given(t) => TimeOfDay(First5(t))
    case Cleared => !needed
    case Absent =>
      if s.runTime.None? then !needed else w.known(s.timezone) && TimeOfDay(First5(s.runTime.value))
  }

  /** The number given, or else the stored one, is a whole number of this range; it is there if it is needed. */
  predicate DayAccepted(f: Field<V.Number>, stored: Option<int>, last: int, needed: bool)
  {
    match f
    case Given(n) => n.Finite? && n.r == n.r.Floor as real && 1 <= n.r.Floor <= last
    case Cleared => !needed
    case Absent => if stored.None? then !needed else 1 <= stored.value <= last
  }

  predicate IntervalAccepted(f: Field<V.Number>, stored: Option<int>, whole: bool)
  {
    match f
    case Given(n) => n.Finite? && n.r > 0.0 && (whole ==> n.r == n.r.Floor as real)
    case Cleared => true
    case Absent => stored.Some? ==> stored.value > 0
  }

  /** The number in force is the one its field and the stored one come to. */
  lemma DayAcceptedIff(f: Field<V.Number>, stored: Option<int>, last: int, needed: bool)
    ensures DayAccepted(f, stored, last, needed) <==>
            IntegerIn(Stated(f, stored), 1, last) && (needed ==> Stated(f, stored).Some?)
  {}

  lemma IntervalAcceptedIff(f: Field<V.Number>, stored: Option<int>, whole: bool)
    ensures IntervalAccepted(f, stored, whole) <==>
            (Stated(f, stored).Some? ==>
              var n := Stated(f, stored).value; n.Finite? && n.r > 0.0 && (whole ==> IsInteger(n)))
  {}

  lemma TimeAcceptedIff(s: Schedule, b: Body, w: World)
    requires KindAccepted(s, b)
    ensures TimeAccepted(s, b, w) <==>
            var kind := if b.kind.Some? then Names.UpperCase(b.kind.value) else s.kind;
            && StatedTime(s, b.runTime, w).Ok?
            && (var time := StatedTime(s, b.runTime, w).value;
                if time.Some? then TimeOfDay(time.value) else kind !in TIME_BASED_SCHEDULES)
  {
    hide Names.UpperCase, UtcTimeToLocal;
  }

  /** Exactly which changes are accepted. */
  lemma AcceptedIff(j: Job, b: Body, w: World)
    ensures Patched(j, b, w).Ok? <==>
            var s := j.schedule;
            var kind := if b.kind.Some? then Names.UpperCase(b.kind.value) else s.kind;
            && KindAccepted(s, b) && ZoneAccepted(s, b, w) && TimeAccepted(s, b, w)
            && DayAccepted(b.dayOfWeek, s.dayOfWeek, 7, kind == "WEEKLY")
            && DayAccepted(b.dayOfMonth, s.dayOfMonth, 31, kind == "MONTHLY")
            && IntervalAccepted(b.intervalMinutes, s.intervalMinutes, kind == "INTERVAL")
  {
    hide AsciiText.Trim, Names.UpperCase, UtcTimeToLocal, LocalTimeToUtc;
    hide Stated, StatedTime, DayAccepted, IntervalAccepted, TimeAccepted, IntegerIn, IsInteger, TimeOfDay;
    var s := j.schedule;
    var kind := if b.kind.Some? then Names.UpperCase(b.kind.value) else s.kind;
    if KindAccepted(s, b) { TimeAcceptedIff(s, b, w); }
    DayAcceptedIff(b.dayOfWeek, s.dayOfWeek, 7, kind == "WEEKLY");
    DayAcceptedIff(b.dayOfMonth, s.dayOfMonth, 31, kind == "MONTHLY");
    IntervalAcceptedIff(b.intervalMinutes, s.intervalMinutes, kind == "INTERVAL");
  }

  /** The fields of an accepted change are the given ones, and the stored ones where none is given. */
  lemma AcceptedScheduleIsTheGivenOne(s: Schedule, b: Body, w: World)
    requires NewSchedule(s, b, w).Ok?
    ensures var n := NewSchedule(s, b, w).value;
            && n.kind == (if b.kind.Some? then Names.UpperCase(b.kind.value) else s.kind)
            && n.timezone == (if b.timezone.Some? then AsciiText.Trim(b.timezone.value) else s.timezone)
            && (n.kind == "WEEKLY" ==>
                  && n.dayOfWeek.Some? && (b.dayOfWeek.Absent? ==> n.dayOfWeek == s.dayOfWeek)
                  && (b.dayOfWeek.Given? ==> b.dayOfWeek.value == V.Finite(n.dayOfWeek.value as real)))
            && (n.kind == "MONTHLY" ==>
                  && n.dayOfMonth.Some? && (b.dayOfMonth.Absent? ==> n.dayOfMonth == s.dayOfMonth)
                  && (b.dayOfMonth.Given? ==> b.dayOfMonth.value == V.Finite(n.dayOfMonth.value as real)))
            && (n.kind == "INTERVAL" ==>
                  && (b.intervalMinutes.Absent? ==> n.intervalMinutes == s.intervalMinutes)
                  && (b.intervalMinutes.Cleared? ==> n.intervalMinutes == None)
                  && (b.intervalMinutes.Given? ==>
                        n.intervalMinutes.Some?
                        && b.intervalMinutes.value == V.Finite(n.intervalMinutes.value as real)))
  {
    hide AsciiText.Trim, Names.UpperCase, UtcTimeToLocal, LocalTimeToUtc;
  }

  /** A time is stored in UTC: the given wall clock is that of the new zone, a stored one was that of the old zone. */
  lemma AcceptedTimeIsTheGivenOne(s: Schedule, b: Body, w: World)
    requires NewSchedule(s, b, w).Ok?
    ensures var n := NewSchedule(s, b, w).value;
            var off := OffsetOf(w, n.timezone);
            && (b.runTime.Given? ==>
                  && TimeOfDay(First5(b.runTime.value))
                  && n.runTime == Some(LocalTimeToUtc(off, w.today, First5(b.runTime.value))))
            && (b.runTime.Cleared? || (b.runTime.Absent? && s.runTime.None?) ==> n.runTime == None)
            && (b.runTime.Absent? && s.runTime.Some? ==>
                  && TimeOfDay(First5(s.runTime.value))
                  && n.runTime == Some(LocalTimeToUtc(off, w.today,
                       UtcTimeToLocal(OffsetOf(w, s.timezone), w.today, First5(s.runTime.value)))))
  {
    hide AsciiText.Trim, Names.UpperCase, UtcTimeToLocal, LocalTimeToUtc;
  }

  /** A pinned run is taken as it is; a body that names any schedule field, or wakes a stale job, gets a new one. */
  lemma AcceptedNextRun(j: Job, b: Body, w: World)
    requires Patched(j, b, w).Ok?
    ensures var q := Patched(j, b, w).value;
            var named := b.kind.Some? || b.timezone.Some? || b.runTime != Absent || b.dayOfWeek != Absent
              || b.dayOfMonth != Absent || b.intervalMinutes != Absent;
            var wakes := q.enabled && !j.enabled && (j.nextRunAt.None? || j.nextRunAt.value <= w.now);
            && (b.nextRunAt.Some? ==> q.nextRunAt == b.nextRunAt)
            && (b.nextRunAt.None? && (named || wakes) ==> q.nextRunAt == Some(w.nextRun(q.schedule)))
            && (b.nextRunAt.None? && !named && !wakes ==> q.nextRunAt == j.nextRunAt)
  {
    hide NewSchedule;
  }

  /** And what describes the job is what is given, or else what was there. */
  lemma AcceptedDescription(j: Job, b: Body, w: World)
    requires Patched(j, b, w).Ok?
    ensures var q := Patched(j, b, w).value;
            && q.enabled == (if b.enabled.Some? then b.enabled.value else j.enabled)
            && q.name == (if b.about.name.Some? then AsciiText.Trim(b.about.name.value) else j.name)
            && q.description == (if b.about.description.Some? then b.about.description else j.description)
            && var kept := if b.about.params.Kept? then j.params else b.about.params.json;
               q.params == (if kept.Some? then kept else Some("{}"))
  {
    hide NewSchedule;
  }

  /** With a scheduler that never looks back, a job that a change switches on is not already due. */
  lemma SwitchedOnIsNotDue(j: Job, b: Body, w: World)
    requires Patched(j, b, w).Ok? && (forall s :: w.nextRun(s) > w.now) && b.nextRunAt.None?
    requires Patched(j, b, w).value.enabled && !j.enabled
    ensures Patched(j, b, w).value.nextRunAt.Some? && Patched(j, b, w).value.nextRunAt.value > w.now
  {}

  // ------------------------------------------------------------------ the route

  class CronJob {
    var name: string
    var description: Option<string>
    var params: Option<string>
    var enabled: bool
    var kind: string
    var timezone: string
    var runTime: Option<string>
    var dayOfWeek: Option<int>
    var dayOfMonth: Option<int>
    var intervalMinutes: Option<int>
    var nextRunAt: Option<int>

    function Row(): Job
      reads this
    {
      Job(name, description, params, enabled,
          Schedule(kind, timezone, runTime, dayOfWeek, dayOfMonth, intervalMinutes), nextRunAt)
    }

    constructor (j: Job)
      ensures Row() == j
    {
      name, description, params := j.name, j.description, j.params;
      enabled, nextRunAt := j.enabled, j.nextRunAt;
      kind, timezone, runTime := j.schedule.kind, j.schedule.timezone, j.schedule.runTime;
      dayOfWeek, dayOfMonth, intervalMinutes := j.schedule.dayOfWeek, j.schedule.dayOfMonth, j.schedule.intervalMinutes;
    }

    /** The wall-clock time in force: the one given, none, or the stored one restated in its zone. */
    method TimeInForce(f: Field<string>, w: World) returns (r: Result<Option<string>, Failure>)
      ensures r == StatedTime(Row().schedule, f, w)
    {
      if f.Cleared? || (f.Absent? && runTime.None?) {
        return Ok(None);
      }
      if f.Given? {
        return Ok(Some(First5(f.value)));
      }
      var stored := First5(runTime.value);
      if !w.known(timezone) || !TimeOfDay(stored) {
        return Err(Internal);
      }
      r := Ok(Some(UtcTimeToLocal(OffsetOf(w, timezone), w.today, stored)));
    }

    /** The number in force: the one given, none, or the stored one. */
    method NumberInForce(f: Field<V.Number>, stored: Option<int>) returns (n: Option<V.Number>)
      ensures n == Stated(f, stored)
    {
      n := None;
      if f.Given? {
        n := Some(f.value);
      } else if f.Absent? && stored.Some? {
        n := Some(V.Finite(stored.value as real));
      }
    }

    /** The checks on the whole schedule, one after another. */
    method Checked(kind: string, zone: string, time: Option<string>, dow: Option<V.Number>, dom: Option<V.Number>,
                   interval: Option<V.Number>, w: World) returns (r: Result<Schedule, Failure>)
      ensures r == Normalise(kind, zone, time, dow, dom, interval, w)
    {
      if time.Some? && !TimeOfDay(time.value) {
        return Err(BadRunTime);
      }
      if time.None? && kind in TIME_BASED_SCHEDULES {
        return Err(RunTimeRequired);
      }
      var utc := None;
      if time.Some? {
        utc := Some(LocalTimeToUtc(OffsetOf(w, zone), w.today, time.value));
      }
      if dow.Some? && (!IsInteger(dow.value) || dow.value.r < 1.0 || dow.value.r > 7.0) {
        return Err(BadDayOfWeek);
      }
      if dom.Some? && (!IsInteger(dom.value) || dom.value.r < 1.0 || dom.value.r > 31.0) {
        return Err(BadDayOfMonth);
      }
      if interval.Some? && (!interval.value.Finite? || interval.value.r <= 0.0) {
        return Err(BadInterval);
      }
      if kind == "WEEKLY" && dow.None? {
        return Err(WeeklyNeedsDay);
      }
      if kind == "MONTHLY" && dom.None? {
        return Err(MonthlyNeedsDay);
      }
      var keptDayOfWeek := if kind == "WEEKLY" then AsInt(dow) else None;
      var keptDayOfMonth := if kind == "MONTHLY" then AsInt(dom) else None;
      if kind == "INTERVAL" && interval.Some? && !IsInteger(interval.value) {
        return Err(Internal);
      }
      var keptInterval := if kind == "INTERVAL" then AsInt(interval) else None;
      return Ok(Schedule(kind, zone, utc, keptDayOfWeek, keptDayOfMonth, keptInterval));
    }

    /** The schedule the body asks for, over what is stored. */
    method Requested(b: Body, w: World) returns (r: Result<Schedule, Failure>)
      ensures r == NewSchedule(Row().schedule, b, w)
    {
      var newKind := if b.kind.Some? then Names.UpperCase(b.kind.value) else kind;
      if newKind !in SCHEDULE_TYPES {
        return Err(BadKind);
      }
      var zone := if b.timezone.Some? then AsciiText.Trim(b.timezone.value) else timezone;
      if !w.known(zone) {
        return Err(UnknownZone);
      }
      var time := TimeInForce(b.runTime, w);
      if time.Err? {
        return Err(time.error);
      }
      var dow := NumberInForce(b.dayOfWeek, dayOfWeek);
      var dom := NumberInForce(b.dayOfMonth, dayOfMonth);
      var interval := NumberInForce(b.intervalMinutes, intervalMinutes);
      r := Checked(newKind, zone, time.value, dow, dom, interval, w);
    }

    /** The next run, before anything is written. */
    method NextRun(b: Body, w: World, on: bool, s: Schedule) returns (next: Option<int>)
      ensures next == NewNextRun(Row(), b, on, s, w)
    {
      next := b.nextRunAt;
      if next.None? {
        next := nextRunAt;
        var stale := next.None? || next.value <= w.now;
        var rescheduled :=
          b.kind.Some? || !b.runTime.Absent? || b.timezone.Some?
          || !b.dayOfWeek.Absent? || !b.dayOfMonth.Absent? || !b.intervalMinutes.Absent?;
        if rescheduled || (on && !enabled && stale) {
          next := Some(w.nextRun(s));
        }
      }
    }

    /** The columns that describe the job. */
    method Describe(a: About)
      modifies `name, `description, `params
      ensures name == NewName(old(Row()), a) && description == NewDescription(old(Row()), a)
      ensures params == Some(NewParams(old(Row()), a))
    {
      if a.name.Some? {
        name := AsciiText.Trim(a.name.value);
      }
      if a.description.Some? {
        description := a.description;
      }
      if a.params.Posted? {
        params := a.params.json;
      }
      params := Some(params.Or("{}"));
    }

    /** The UPDATE. */
    method Write(a: About, on: bool, s: Schedule, next: Option<int>)
      modifies this
      ensures var j := old(Row());
              Row() == Job(NewName(j, a), NewDescription(j, a), Some(NewParams(j, a)), on, s, next)
    {
      hide NewName, NewDescription, NewParams;
      Describe(a);
      enabled, nextRunAt := on, next;
      kind, timezone, runTime := s.kind, s.timezone, s.runTime;
      dayOfWeek, dayOfMonth, intervalMinutes := s.dayOfWeek, s.dayOfMonth, s.intervalMinutes;
    }

    /** Checks first, then one UPDATE: a refused change leaves the row as it was. */
    method Patch(b: Body, w: World) returns (r: Result<(), Failure>)
      modifies this
      ensures match Patched(old(Row()), b, w)
              case Ok(j) => r == Ok(()) && Row() == j
              case Err(e) => r == Err(e) && Row() == old(Row())
    {
      hide NewSchedule, NewNextRun, NewName, NewDescription, NewParams;
      var on := if b.enabled.Some? then b.enabled.value else enabled;
      var s := Requested(b, w);
      if s.Err? {
        return Err(s.error);
      }
      var next := NextRun(b, w, on, s.value);
      Write(b.about, on, s.value, next);
      return Ok(());
    }
  }
}
