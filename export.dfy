/** The two calendar exporters (calsnap/src/lib/export.ts): the Google
    Calendar "render" link, as its ordered list of query parameters, and the
    list of entries an iCalendar file is built from. The form-encoding of the
    query and the iCalendar text itself are produced by the browser and by
    a library, and are not modelled. */
module Export {
  import opened Wrappers
  import opened TextOps
  import opened CivilDates
  import opened Types

  // ---------------------------------------------------------------------
  // Google Calendar link

  const GoogleCalendarBase: string := "https://calendar.google.com/calendar/render"

  datatype Param = Param(key: string, value: string)

  /** `'#'` for an event that cannot be linked, or the base URL followed by
      these query parameters, in insertion order. */
  datatype GoogleLink = Sentinel | Template(base: string, params: seq<Param>)

  /** `toISOString()` on an Invalid Date throws a RangeError. */
  datatype ExportError = InvalidTimeValue

  function Keys(ps: seq<Param>): (ks: seq<string>)
    ensures |ks| == |ps| && forall i :: 0 <= i < |ps| ==> ks[i] == ps[i].key
  {
    if ps == [] then [] else [ps[0].key] + Keys(ps[1..])
  }

  /** `params.get(key)`: the value of the first parameter with that key. */
  function Lookup(ps: seq<Param>, key: string): (r: Option<string>)
    ensures r.None? <==> key !in Keys(ps)
    ensures r.Some? ==> Param(key, r.value) in ps
  {
    if ps == [] then None
    else if ps[0].key == key then Some(ps[0].value)
    else Lookup(ps[1..], key)
  }

  /** `date.replace(/-/g, '')` */
  function CompactDate(date: string): string {
    RemoveAll(date, '-')
  }

  /** The inner `formatDateTime` of the timed branch: the date without
      hyphens, `T`, the time with its first colon removed, and `00` seconds. */
  function Stamp(date: string, time: string): string {
    CompactDate(date) + "T" + RemoveFirst(time, ':') + "00"
  }

  /** The `dates` value of an all-day event: the date and the day after it,
      both without hyphens. The day after is computed on the parsed date
      and written back through `toISOString`; a date `new Date` cannot read
      makes `toISOString` throw. */
  function AllDayDates(date: string): (r: Result<string, ExportError>)
    ensures r.Err? <==> ParseIsoDate(date).None?
  {
    match ParseIsoDate(date)
    case None => Err(InvalidTimeValue)
    case Some(d) => Ok(CompactDate(date) + "/" + CompactDate(FormatIsoDate(NextDay(d))))
  }

  /** The `dates` value of a timed event. Both endpoints use the event's own
      date; without an end time the end endpoint repeats the start. */
  function TimedDates(date: string, start: string, end: Option<string>): (r: string)
    ensures !Truthy(end) ==> r == Stamp(date, start) + "/" + Stamp(date, start)
    ensures Truthy(end) ==> r == Stamp(date, start) + "/" + Stamp(date, end.value)
  {
    Stamp(date, start) + "/" + Stamp(date, if Truthy(end) then end.value else start)
  }

  function DatesValue(e: Event): Result<string, ExportError> {
    if Truthy(e.startTime) then Ok(TimedDates(e.date, e.startTime.value, e.endTime))
    else AllDayDates(e.date)
  }

  /** `if (value) params.set(key, value)` on a key not yet present. */
  function Optional(key: string, value: Option<string>): (ps: seq<Param>)
    ensures Keys(ps) == if Truthy(value) then [key] else []
    ensures Lookup(ps, key) == OrNone(value)
  {
    if Truthy(value) then [Param(key, value.value)] else []
  }

  lemma {:induction false} KeysAppend(a: seq<Param>, b: seq<Param>)
    ensures Keys(a + b) == Keys(a) + Keys(b)
  {
    if a != [] {
      assert (a + b)[1..] == a[1..] + b;
      KeysAppend(a[1..], b);
    } else {
      assert a + b == b;
    }
  }

  /** Setting a key that is not yet present appends it: earlier parameters
      keep their values and later ones are found after them. */
  lemma {:induction false} LookupAppend(a: seq<Param>, b: seq<Param>, key: string)
    ensures Lookup(a + b, key) == if key in Keys(a) then Lookup(a, key) else Lookup(b, key)
  {
    if a != [] {
      assert (a + b)[1..] == a[1..] + b;
      LookupAppend(a[1..], b, key);
      assert Keys(a) == [a[0].key] + Keys(a[1..]);
    } else {
      assert a + b == b;
    }
  }

  /** The parameters in the order the source sets them. */
  function TemplateParams(e: Event, dates: string): (ps: seq<Param>)
    ensures Keys(ps) == ["action", "text", "dates"]
      + (if Truthy(e.notes) then ["details"] else [])
      + (if Truthy(e.location) then ["location"] else [])
  {
    var fixed := [Param("action", "TEMPLATE"),
                  Param("text", if e.activity != "" then e.activity else UntitledEvent),
                  Param("dates", dates)];
    var details, location := Optional("details", e.notes), Optional("location", e.location);
    KeysAppend(fixed, details);
    KeysAppend(fixed + details, location);
    fixed + details + location
  }

  /** A key is found in the first of three parameter lists that has it. */
  lemma LookupThree(a: seq<Param>, b: seq<Param>, c: seq<Param>, key: string)
    ensures Lookup(a + b + c, key) ==
      if key in Keys(a) then Lookup(a, key) else if key in Keys(b) then Lookup(b, key) else Lookup(c, key)
  {
    LookupAppend(a + b, c, key);
    LookupAppend(a, b, key);
    KeysAppend(a, b);
  }

  /** Each parameter holds the value the source sets it to; `details` and
      `location` are absent exactly when the event's notes or location are falsy. */
  lemma TemplateParamValues(e: Event, dates: string)
    ensures Lookup(TemplateParams(e, dates), "action") == Some("TEMPLATE")
    ensures Lookup(TemplateParams(e, dates), "text") == Some(if e.activity != "" then e.activity else UntitledEvent)
    ensures Lookup(TemplateParams(e, dates), "dates") == Some(dates)
    ensures Lookup(TemplateParams(e, dates), "details") == OrNone(e.notes)
    ensures Lookup(TemplateParams(e, dates), "location") == OrNone(e.location)
  {
    FixedParamValues(e, dates);
    OptionalParamValues(e, dates);
  }

  lemma FixedParamValues(e: Event, dates: string)
    ensures Lookup(TemplateParams(e, dates), "action") == Some("TEMPLATE")
    ensures Lookup(TemplateParams(e, dates), "text") == Some(if e.activity != "" then e.activity else UntitledEvent)
    ensures Lookup(TemplateParams(e, dates), "dates") == Some(dates)
  {
    var text := if e.activity != "" then e.activity else UntitledEvent;
    var fixed := [Param("action", "TEMPLATE"), Param("text", text), Param("dates", dates)];
    var details, location := Optional("details", e.notes), Optional("location", e.location);
    assert TemplateParams(e, dates) == fixed + details + location;
    assert Keys(fixed) == ["action", "text", "dates"];
    LookupThree(fixed, details, location, "action");
    LookupThree(fixed, details, location, "text");
    LookupThree(fixed, details, location, "dates");
  }

  lemma OptionalParamValues(e: Event, dates: string)
    ensures Lookup(TemplateParams(e, dates), "details") == OrNone(e.notes)
    ensures Lookup(TemplateParams(e, dates), "location") == OrNone(e.location)
  {
    var text := if e.activity != "" then e.activity else UntitledEvent;
    var fixed := [Param("action", "TEMPLATE"), Param("text", text), Param("dates", dates)];
    var details, location := Optional("details", e.notes), Optional("location", e.location);
    assert TemplateParams(e, dates) == fixed + details + location;
    assert Keys(fixed) == ["action", "text", "dates"];
    assert "details" !in Keys(fixed) && "location" !in Keys(fixed) && "location" !in Keys(details);
    LookupThree(fixed, details, location, "details");
    LookupThree(fixed, details, location, "location");
  }

  /** `generateGoogleCalendarUrl`. */
  function GoogleCalendarUrl(event: Option<Event>): (r: Result<GoogleLink, ExportError>)
    ensures r == Ok(Sentinel) <==> event.None? || event.value.date == ""
    ensures r.Err? <==> (event.Some? && event.value.date != "" && !Truthy(event.value.startTime)
      && ParseIsoDate(event.value.date).None?)
    ensures r.Ok? && r.value.Template? ==>
      r.value.base == GoogleCalendarBase && r.value.params == TemplateParams(event.value, DatesValue(event.value).value)
  {
    if event.None? || event.value.date == "" then Ok(Sentinel)
    else
      var e := event.value;
      match DatesValue(e)
      case Err(x) => Err(x)
      case Ok(dates) => Ok(Template(GoogleCalendarBase, TemplateParams(e, dates)))
  }

  /** The link never depends on the end date or the recurrence. */
  lemma GoogleIgnoresEndDateAndRecurrence(e: Event, endDate: Option<string>, recurrence: Option<string>)
    ensures GoogleCalendarUrl(Some(e)) == GoogleCalendarUrl(Some(e.(endDate := endDate, recurrence := recurrence)))
  {
  }

  // ---------------------------------------------------------------------
  // What the `dates` value means

  /** Reading a basic-format `YYYYMMDD` date. */
  function ParseBasicDate(s: string): (r: Option<CivilDate>)
    ensures r.Some? ==> Valid(r.value)
  {
    if |s| == 8 && AllDigits(s) then
      var d := CivilDate(DigitsValue(s[..4]), DigitsValue(s[4..6]), DigitsValue(s[6..]));
      if 1 <= d.month <= 12 && 1 <= d.day <= DaysInMonth(d.year, d.month) then Some(d) else None
    else None
  }

  /** Removing the hyphens of an ISO date leaves its three numerals side by side. */
  lemma CompactIso(s: string)
    requires IsIsoDateText(s)
    ensures CompactDate(s) == s[..4] + s[5..7] + s[8..]
  {
    var y, m, d := s[..4], s[5..7], s[8..];
    IsoTextPieces(s);
    assert '-' !in y && '-' !in m && '-' !in d by {
      assert forall i :: 0 <= i < |y| ==> IsDigit(y[i]);
      assert forall i :: 0 <= i < |m| ==> IsDigit(m[i]);
      assert forall i :: 0 <= i < |d| ==> IsDigit(d[i]);
    }
    RemoveAllKeeps(y, '-');
    RemoveAllKeeps(m, '-');
    RemoveAllKeeps(d, '-');
    assert RemoveAll("-", '-') == "";
    RemoveAllConcat(y, "-", '-');
    RemoveAllConcat(y + "-", m, '-');
    RemoveAllConcat(y + "-" + m, "-", '-');
    RemoveAllConcat(y + "-" + m + "-", d, '-');
  }

  /** The compact form of an ISO date reads back as the same date. */
  lemma CompactIsoReads(s: string)
    requires IsIsoDateText(s)
    ensures |CompactDate(s)| == 8 && AllDigits(CompactDate(s))
    ensures ParseBasicDate(CompactDate(s)) == ParseIsoDate(s)
  {
    CompactIso(s);
    var c := CompactDate(s);
    assert c[..4] == s[..4] && c[4..6] == s[5..7] && c[6..] == s[8..];
  }

  /** An all-day link spans exactly one day: its two halves read back as the
      event's date and the calendar day after it. */
  lemma AllDayDatesMeaning(date: string, d: CivilDate)
    requires ParseIsoDate(date) == Some(d) && NextDay(d).year <= 9999
    ensures var parts := Split(AllDayDates(date).value, '/');
      |parts| == 2 && ParseBasicDate(parts[0]) == Some(d) && ParseBasicDate(parts[1]) == Some(NextDay(d))
    ensures DayNumber(NextDay(d)) == DayNumber(d) + 1
  {
    var next := FormatIsoDate(NextDay(d));
    assert IsIsoDateText(date);
    FormattedPieces(NextDay(d));
    FormatParseRoundTrip(NextDay(d));
    CompactIsoReads(date);
    CompactIsoReads(next);
    var a, b := CompactDate(date), CompactDate(next);
    assert '/' !in a && '/' !in b by {
      assert forall i :: 0 <= i < |a| ==> IsDigit(a[i]);
      assert forall i :: 0 <= i < |b| ==> IsDigit(b[i]);
    }
    assert AllDayDates(date).value == a + ['/'] + b;
    SplitAround(a, b, '/');
    NextDayIsSuccessor(d);
  }

  /** A documented `HH:MM` time loses exactly its colon. */
  lemma ClockWithoutColon(time: string)
    requires IsClockText(time)
    ensures RemoveFirst(time, ':') == time[..2] + time[3..]
  {
    assert ':' in time;
    assert ':' !in time[..2] by { assert IsDigit(time[0]) && IsDigit(time[1]); }
    assert IndexOf(time, ':') == 2;
  }

  /** A timed endpoint is the basic-format local date-time `YYYYMMDDTHHMM00`
      of the event's date and the given time. */
  lemma StampMeaning(date: string, time: string)
    requires IsIsoDateText(date) && IsClockText(time)
    ensures Stamp(date, time) == (date[..4] + date[5..7] + date[8..]) + "T" + (time[..2] + time[3..]) + "00"
    ensures ParseBasicDate(Stamp(date, time)[..8]) == ParseIsoDate(date)
  {
    CompactIso(date);
    CompactIsoReads(date);
    ClockWithoutColon(time);
    assert Stamp(date, time)[..8] == CompactDate(date);
  }

  /** The documented example: 2025-03-01 from 09:00 to 09:30. */
  lemma {:induction false} TimedExample(date: string, start: string, end: string)
    requires date == "2025-03-01" && start == "09:00" && end == "09:30"
    ensures TimedDates(date, start, Some(end)) == "20250301T090000" + "/" + "20250301T093000"
  {
    ExampleStamp(date, start, "0900", "20250301T090000");
    ExampleStamp(date, end, "0930", "20250301T093000");
  }

  lemma {:induction false} ExampleStamp(date: string, time: string, digits: string, stamp: string)
    requires date == "2025-03-01"
    requires (time == "09:00" && digits == "0900" && stamp == "20250301T090000")
          || (time == "09:30" && digits == "0930" && stamp == "20250301T093000")
    ensures Stamp(date, time) == stamp
  {
    assert Stamp(date, time) == "20250301" + "T" + digits + "00" by {
      ExampleDate(date);
      ExampleClock(time, digits);
      StampMeaning(date, time);
    }
    StampLiteral(digits, stamp);
  }

  lemma StampLiteral(digits: string, stamp: string)
    requires (digits == "0900" && stamp == "20250301T090000") || (digits == "0930" && stamp == "20250301T093000")
    ensures "20250301" + "T" + digits + "00" == stamp
  {
  }

  lemma ExampleDate(date: string)
    requires date == "2025-03-01"
    ensures IsIsoDateText(date) && date[..4] + date[5..7] + date[8..] == "20250301"
  {
    assert date[..4] == "2025" && date[5..7] == "03" && date[8..] == "01";
  }

  lemma ExampleClock(time: string, digits: string)
    requires (time == "09:00" && digits == "0900") || (time == "09:30" && digits == "0930")
    ensures IsClockText(time) && time[..2] + time[3..] == digits
  {
    assert time[..2] == "09";
    TwoDigitValue(time[..2]);
    TwoDigitValue(time[3..]);
  }

  // ---------------------------------------------------------------------
  // iCalendar entries

  const CalendarName: string := "CalSnap Schedule"
  const IcsFileName: string := "schedule.ics"

  /** A `Date`: a civil date and a minute of that day, or an Invalid Date. */
  datatype Instant = InvalidInstant | At(date: CivilDate, minute: nat)

  predicate ValidInstant(t: Instant) {
    t.At? ==> Valid(t.date) && t.date.year >= 0 && t.minute < 1440
  }

  /** Minutes since 0000-01-01 00:00, the reference for instant arithmetic. */
  function Minutes(t: Instant): nat
    requires t.At? && ValidInstant(t)
  {
    DayNumber(t.date) * 1440 + t.minute
  }

  /** `new Date(date)` for a date-only text: midnight of that day. */
  function DateOnly(date: string): (t: Instant)
    ensures ValidInstant(t)
    ensures t.At? <==> ParseIsoDate(date).Some?
  {
    match ParseIsoDate(date)
    case Some(d) => At(d, 0)
    case None => InvalidInstant
  }

  /** `new Date(`${date}T${time}`)`: that time of that day. */
  function LocalDateTime(date: string, time: string): (t: Instant)
    ensures ValidInstant(t)
    ensures t.At? <==> ParseIsoDate(date).Some? && IsClockText(time)
    ensures t.At? ==> t.date == ParseIsoDate(date).value && t.minute == ClockMinutes(time)
  {
    match ParseIsoDate(date)
    case Some(d) => if IsClockText(time) then At(d, ClockMinutes(time)) else InvalidInstant
    case None => InvalidInstant
  }

  /** `end.setHours(end.getHours() + 1)`: an hour later, into the next day
      past 23:00; an Invalid Date stays invalid. */
  function AddHour(t: Instant): (r: Instant)
    requires ValidInstant(t)
    ensures ValidInstant(r) && (r.At? <==> t.At?)
  {
    match t
    case InvalidInstant => InvalidInstant
    case At(d, m) => if m + 60 < 1440 then At(d, m + 60) else At(NextDay(d), m + 60 - 1440)
  }

  /** AddHour is exactly sixty minutes later, across midnight, month ends and years. */
  lemma AddHourIsSixtyMinutes(t: Instant)
    requires t.At? && ValidInstant(t)
    ensures Minutes(AddHour(t)) == Minutes(t) + 60
  {
    if t.minute + 60 >= 1440 {
      NextDayIsSuccessor(t.date);
    }
  }

  /** The options handed to `calendar.createEvent`. An all-day entry has no
      `end`; a timed one always has one. There is no recurrence option. */
  datatype IcsEntry = IcsEntry(
    start: Instant,
    end: Option<Instant>,
    allDay: bool,
    summary: string,
    description: Option<string>,
    location: Option<string>)

  /** The entry the loop body builds for an event with a date. */
  function EntryFor(e: Event): (r: IcsEntry)
    ensures r.allDay <==> !Truthy(e.startTime)
    ensures ValidInstant(r.start) && (r.end.Some? ==> ValidInstant(r.end.value))
    ensures r.summary == if e.activity != "" then e.activity else UntitledEvent
    ensures r.description == e.notes && r.location == e.location
    ensures r.allDay ==> r.start == DateOnly(e.date) && r.end.None?
    ensures !r.allDay ==> r.start == LocalDateTime(e.date, e.startTime.value) && r.end.Some?
    ensures !r.allDay && Truthy(e.endTime) ==> r.end == Some(LocalDateTime(e.date, e.endTime.value))
    ensures !r.allDay && !Truthy(e.endTime) && r.start.At? ==>
      r.end.value.At? && Minutes(r.end.value) == Minutes(r.start) + 60
  {
    var summary := if e.activity != "" then e.activity else UntitledEvent;
    if !Truthy(e.startTime) then
      IcsEntry(DateOnly(e.date), None, true, summary, e.notes, e.location)
    else
      var start := LocalDateTime(e.date, e.startTime.value);
      var end := if Truthy(e.endTime) then LocalDateTime(e.date, e.endTime.value) else AddHour(start);
      assert !Truthy(e.endTime) && start.At? ==> Minutes(end) == Minutes(start) + 60 by {
        if !Truthy(e.endTime) && start.At? { AddHourIsSixtyMinutes(start); }
      }
      IcsEntry(start, Some(end), false, summary, e.notes, e.location)
  }

  /** The entries one event contributes: none without a date. */
  function EntriesOf(e: Event): seq<IcsEntry> {
    if e.date == "" then [] else [EntryFor(e)]
  }

  /** `f` applied to each element, the results concatenated in order. */
  function ConcatMap<T, U>(f: T -> seq<U>, xs: seq<T>): seq<U> {
    if xs == [] then [] else ConcatMap(f, xs[..|xs| - 1]) + f(xs[|xs| - 1])
  }

  lemma {:induction false} ConcatMapAppend<T, U>(f: T -> seq<U>, a: seq<T>, b: seq<T>)
    ensures ConcatMap(f, a + b) == ConcatMap(f, a) + ConcatMap(f, b)
  {
    if b == [] {
      assert a + b == a;
    } else {
      var n := |b| - 1;
      assert (a + b)[..|a + b| - 1] == a + b[..n] && (a + b)[|a + b| - 1] == b[n];
      ConcatMapAppend(f, a, b[..n]);
    }
  }

  lemma {:induction false} ConcatMapShort<T, U>(f: T -> seq<U>, xs: seq<T>)
    requires forall x :: |f(x)| <= 1
    ensures |ConcatMap(f, xs)| <= |xs|
  {
    if xs != [] {
      ConcatMapShort(f, xs[..|xs| - 1]);
    }
  }

  lemma {:induction false} ConcatMapPointwise<T, U>(f: T -> seq<U>, xs: seq<T>, ys: seq<T>)
    requires |xs| == |ys| && forall i :: 0 <= i < |xs| ==> f(xs[i]) == f(ys[i])
    ensures ConcatMap(f, xs) == ConcatMap(f, ys)
  {
    if xs != [] {
      var n := |xs| - 1;
      ConcatMapPointwise(f, xs[..n], ys[..n]);
    }
  }

  lemma {:induction false} ConcatMapMembers<T, U>(f: T -> seq<U>, xs: seq<T>)
    ensures forall x, u :: x in xs && u in f(x) ==> u in ConcatMap(f, xs)
    ensures forall u :: u in ConcatMap(f, xs) ==> exists x :: x in xs && u in f(x)
  {
    if xs != [] {
      var n := |xs| - 1;
      ConcatMapMembers(f, xs[..n]);
      assert xs == xs[..n] + [xs[n]];
    }
  }

  /** The entries of a whole schedule: events without a date are skipped,
      every other event gives one entry, in input order. */
  function IcsEntries(events: seq<Event>): (r: seq<IcsEntry>)
    ensures |r| <= |events|
  {
    ConcatMapShort(EntriesOf, events);
    ConcatMap(EntriesOf, events)
  }

  /** A schedule's entries are those of its first part followed by those
      of the rest: each event contributes on its own, in input order. */
  lemma IcsEntriesAppend(a: seq<Event>, b: seq<Event>)
    ensures IcsEntries(a + b) == IcsEntries(a) + IcsEntries(b)
  {
    ConcatMapAppend(EntriesOf, a, b);
  }

  /** A single event contributes exactly its own entries: one for a dated
      event, none otherwise. */
  lemma IcsEntriesSingle(e: Event)
    ensures IcsEntries([e]) == if e.date == "" then [] else [EntryFor(e)]
  {
    assert [e][..0] == [];
    assert ConcatMap(EntriesOf, [e]) == ConcatMap(EntriesOf, []) + EntriesOf(e);
  }

  /** Every dated event has its entry among the schedule's, and every entry
      comes from a dated event. */
  lemma IcsEntriesCover(events: seq<Event>)
    ensures forall e :: e in events && e.date != "" ==> EntryFor(e) in IcsEntries(events)
    ensures forall x :: x in IcsEntries(events) ==> exists e :: e in events && e.date != "" && x == EntryFor(e)
  {
    ConcatMapMembers(EntriesOf, events);
    forall e | e in events && e.date != "" ensures EntryFor(e) in IcsEntries(events) {
      assert EntryFor(e) in EntriesOf(e);
    }
  }

  /** The events with their end date and recurrence replaced. */
  function Retimed(events: seq<Event>, endDate: Option<string>, recurrence: Option<string>): (r: seq<Event>)
    ensures |r| == |events|
    ensures forall i :: 0 <= i < |events| ==> r[i] == events[i].(endDate := endDate, recurrence := recurrence)
  {
    seq(|events|, i requires 0 <= i < |events| => events[i].(endDate := endDate, recurrence := recurrence))
  }

  /** No entry depends on an event's end date or recurrence: the exporter
      emits neither multi-day spans nor repeat rules. */
  lemma IcsIgnoresEndDateAndRecurrence(events: seq<Event>, endDate: Option<string>, recurrence: Option<string>)
    ensures IcsEntries(Retimed(events, endDate, recurrence)) == IcsEntries(events)
  {
    var r := Retimed(events, endDate, recurrence);
    forall i | 0 <= i < |r| ensures EntriesOf(r[i]) == EntriesOf(events[i]) {
      EntriesOfIgnoresEndDate(events[i], endDate, recurrence);
    }
    ConcatMapPointwise(EntriesOf, r, events);
  }

  lemma EntriesOfIgnoresEndDate(e: Event, endDate: Option<string>, recurrence: Option<string>)
    ensures EntriesOf(e.(endDate := endDate, recurrence := recurrence)) == EntriesOf(e)
  {
  }

  /** The calendar object of `ical-generator`, as the list of entries
      created on it. */
  class Calendar {
    const name: string
    var entries: seq<IcsEntry>

    constructor (name: string)
      ensures this.name == name && entries == []
    {
      this.name := name;
      entries := [];
    }

    method CreateEvent(entry: IcsEntry)
      modifies this
      ensures entries == old(entries) + [entry]
    {
      entries := entries + [entry];
    }
  }

  /** `generateIcsFile` up to the download: a calendar named "CalSnap
      Schedule" with one entry per dated event, saved as schedule.ics. */
  method GenerateIcsFile(events: seq<Event>) returns (calendar: Calendar, fileName: string)
    ensures fresh(calendar)
    ensures calendar.name == CalendarName && calendar.entries == IcsEntries(events)
    ensures fileName == IcsFileName
  {
    calendar := new Calendar(CalendarName);
    for i := 0 to |events|
      invariant calendar.name == CalendarName
      invariant calendar.entries == IcsEntries(events[..i])
    {
      var event := events[i];
      IcsEntriesAppend(events[..i], [event]);
      IcsEntriesSingle(event);
      assert events[..i + 1] == events[..i] + [event];
      if event.date != "" {
        calendar.CreateEvent(EntryFor(event));
      }
    }
    assert events[..|events|] == events;
    fileName := IcsFileName;
  }
}
