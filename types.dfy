/** The calendar event record shared by the whole application, with the two
    fields (`endDate`, `recurrence`) that the normalizer and the editor use
    beyond the declared interface, and JavaScript truthiness for its
    optional string fields. */
module Types {
  import opened Wrappers
  import opened TextOps

  /** JavaScript truthiness of a `string | null | undefined` value:
      `null`, `undefined` and `""` are falsy. */
  predicate Truthy(o: Option<string>) {
    o.Some? && o.value != ""
  }

  /** `o || fallback` */
  function Or(o: Option<string>, fallback: string): string {
    if Truthy(o) then o.value else fallback
  }

  /** `o || null` and `o || undefined`: a falsy value becomes absent. */
  function OrNone(o: Option<string>): Option<string> {
    if Truthy(o) then o else None
  }

  const UntitledEvent: string := "Untitled Event"

  /** The recurrence values the editor offers. */
  const Recurrences: set<string> := {"none", "daily", "weekly", "monthly"}

  /** `CalendarEvent`. `startTime` absent (or empty) marks an all-day event. */
  datatype Event = Event(
    activity: string,
    date: string,
    endDate: Option<string>,
    startTime: Option<string>,
    endTime: Option<string>,
    location: Option<string>,
    notes: Option<string>,
    recurrence: Option<string>)

  /** `DaySchedule`: one date and the events on it. */
  datatype DaySchedule = DaySchedule(date: string, events: seq<Event>)

  predicate IsAllDay(e: Event) {
    !Truthy(e.startTime)
  }

  // ---------------------------------------------------------------------
  // The documented `HH:MM` (24-hour) time format.

  predicate IsClockText(s: string) {
    |s| == 5 && s[2] == ':' && AllDigits(s[..2]) && AllDigits(s[3..])
    && DigitsValue(s[..2]) < 24 && DigitsValue(s[3..]) < 60
  }

  /** Minutes after midnight denoted by an `HH:MM` text. */
  function ClockMinutes(s: string): (m: nat)
    requires IsClockText(s)
    ensures m < 1440
  {
    DigitsValue(s[..2]) * 60 + DigitsValue(s[3..])
  }

  /** The `HH:MM` text of a minute of the day, zero-padded. */
  function ClockText(m: nat): (s: string)
    requires m < 1440
    ensures |s| == 5
  {
    [DigitChar(m / 60 / 10), DigitChar(m / 60 % 10), ':', DigitChar(m % 60 / 10), DigitChar(m % 60 % 10)]
  }

  lemma TwoDigitValue(s: string)
    requires |s| == 2 && AllDigits(s)
    ensures DigitsValue(s) == DigitValue(s[0]) * 10 + DigitValue(s[1])
  {
    assert s[..1][..0] == [];
    assert s[..|s| - 1] == s[..1];
    assert DigitsValue(s[..1]) == DigitValue(s[0]);
  }

  /** Writing a minute of the day as `HH:MM` and reading it back gives the same minute. */
  lemma ClockTextRoundTrip(m: nat)
    requires m < 1440
    ensures IsClockText(ClockText(m)) && ClockMinutes(ClockText(m)) == m
  {
    var s := ClockText(m);
    TwoDigitValue(s[..2]);
    TwoDigitValue(s[3..]);
  }

  /** Every `HH:MM` text is the canonical text of its minute. */
  lemma ClockMinutesRoundTrip(s: string)
    requires IsClockText(s)
    ensures ClockText(ClockMinutes(s)) == s
  {
    var h, mm := s[..2], s[3..];
    TwoDigitValue(h);
    TwoDigitValue(mm);
    var m := ClockMinutes(s);
    assert m / 60 == DigitsValue(h) && m % 60 == DigitsValue(mm);
    var t := ClockText(m);
    assert t[0] == s[0] && t[1] == s[1] && t[2] == s[2] && t[3] == s[3] && t[4] == s[4];
  }
}
