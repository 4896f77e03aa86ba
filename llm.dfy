/** Post-processing of the vision/text model's reply (calsnap/src/lib/llm.ts):
    fence stripping, resolution of the reply's shape into a list of raw
    events, and normalization of each raw event into a calendar event.
    The network call is not modelled: the reply's `content`, its `usage`
    counters, `JSON.parse` (as `decode`) and today's date are inputs. */
module Llm {
  import opened Wrappers
  import opened TextOps
  import opened Json
  import opened Types

  // ---------------------------------------------------------------------
  // Fence stripping: content.replace(/```json\n|\n```/g, '').trim()

  const OpenFence: string := "```json\n"
  const CloseFence: string := "\n```"

  /** The global replace: scanning left to right, an opening fence is tried
      before a closing one at each position, and every match is deleted. */
  function RemoveFences(s: string): (r: string)
    ensures |r| <= |s|
    decreases |s|
  {
    if s == [] then []
    else if StartsWith(s, OpenFence) then RemoveFences(s[|OpenFence|..])
    else if StartsWith(s, CloseFence) then RemoveFences(s[|CloseFence|..])
    else [s[0]] + RemoveFences(s[1..])
  }

  function StripFences(content: string): string {
    Trim(RemoveFences(content))
  }

  /** Text without a backtick holds no fence, so nothing is removed. */
  lemma {:induction false} RemoveFencesPlain(s: string)
    requires '`' !in s
    ensures RemoveFences(s) == s
  {
    if s != [] {
      assert !StartsWith(s, OpenFence) by { assert s[0] in s; }
      assert !StartsWith(s, CloseFence) by {
        if |s| >= |CloseFence| { assert s[1] in s; }
      }
      RemoveFencesPlain(s[1..]);
      assert [s[0]] + s[1..] == s;
    }
  }

  /** A closing fence after backtick-free text is the only match in it. */
  lemma {:induction false} RemoveFencesBeforeClose(t: string)
    requires '`' !in t
    ensures RemoveFences(t + CloseFence) == t
  {
    var s := t + CloseFence;
    if t == [] {
      assert s == CloseFence;
      assert StartsWith(s, CloseFence);
      assert s[|CloseFence|..] == [];
    } else {
      assert !StartsWith(s, OpenFence) by { assert s[0] == t[0] && t[0] in t; }
      assert !StartsWith(s, CloseFence) by {
        if |t| > 1 { assert s[1] == t[1] && t[1] in t; } else { assert s[1] == '\n'; }
      }
      assert s[1..] == t[1..] + CloseFence;
      assert '`' !in t[1..] by { forall i | 0 <= i < |t[1..]| ensures t[1..][i] != '`' { assert t[1..][i] == t[i + 1]; } }
      RemoveFencesBeforeClose(t[1..]);
      assert [t[0]] + t[1..] == t;
    }
  }

  /** A reply wrapped exactly in a ```json fence yields its trimmed inner text. */
  lemma StripWrapped(inner: string)
    requires '`' !in inner
    ensures StripFences(OpenFence + inner + CloseFence) == Trim(inner)
  {
    var s := OpenFence + inner + CloseFence;
    assert StartsWith(s, OpenFence);
    assert s[|OpenFence|..] == inner + CloseFence;
    RemoveFencesBeforeClose(inner);
  }

  /** A reply without any fence is only trimmed. */
  lemma StripBare(s: string)
    requires '`' !in s
    ensures StripFences(s) == Trim(s)
  {
    RemoveFencesPlain(s);
  }

  // ---------------------------------------------------------------------
  // Errors

  datatype AnalysisError =
    | NoContent         // the reply carried no (or empty) content
    | MalformedJson     // JSON.parse threw
    | NullReply         // the reply decoded to null: reading `events` of it throws
    | UnknownShape      // image mode: no event list could be located
    | NoEvents          // image mode: the located list is empty
    | NullEvent         // a null element: normalizeEvent reads a property of null

  function Message(e: AnalysisError): string {
    match e
    case NoContent => "No content received from LLM response"
    case MalformedJson => "Failed to parse LLM response as JSON"
    case NullReply => "Cannot read properties of null (reading 'events')"
    case UnknownShape => "Could not parse events structure from response"
    case NoEvents => "No events extracted from image"
    case NullEvent => "Cannot read properties of null (reading 'startTime')"
  }

  // ---------------------------------------------------------------------
  // Shape resolution

  /** `result.events` when it is an array (an array is always truthy). */
  function EventsArray(v: Json): Option<seq<Json>>
    requires !v.JNull?
  {
    match Property(v, "events")
    case Some(JArr(items)) => Some(items)
    case _ => None
  }

  predicate TruthyProperty(v: Json, key: string)
    requires !v.JNull?
  {
    Property(v, key).Some? && ToBoolean(Property(v, key).value)
  }

  /** Image mode: the first of these that applies wins — the reply itself if
      it is an array; its `events` array; its first array-valued property in
      key order; the reply as a single event if it has a truthy `activity`
      and a truthy `date`; otherwise the "could not parse" error. */
  function ResolveImageShape(v: Json): (r: Result<seq<Json>, AnalysisError>)
    ensures v.JArr? ==> r == Ok(v.items)
    ensures v.JNull? ==> r == Err(NullReply)
    ensures v.JObj? && EventsArray(v).Some? ==> r == Ok(EventsArray(v).value)
    ensures v.JObj? && EventsArray(v).None? ==>
      forall i :: (0 <= i < |v.members| && v.members[i].value.JArr?
        && (forall j :: 0 <= j < i ==> !v.members[j].value.JArr?)) ==> r == Ok(v.members[i].value.items)
    ensures v.JObj? && EventsArray(v).None? && (forall i :: 0 <= i < |v.members| ==> !v.members[i].value.JArr?) ==>
      r == (if TruthyProperty(v, "activity") && TruthyProperty(v, "date") then Ok([v]) else Err(UnknownShape))
    ensures (v.JBool? || v.JNum? || v.JStr?) ==> r == Err(UnknownShape)
  {
    if v.JArr? then Ok(v.items)
    else if v.JNull? then Err(NullReply)
    else if EventsArray(v).Some? then Ok(EventsArray(v).value)
    else
      var values := Values(v);
      match FirstArrayIndex(values)
      case Some(i) => Ok(values[i].items)
      case None =>
        if TruthyProperty(v, "activity") && TruthyProperty(v, "date") then Ok([v])
        else Err(UnknownShape)
  }

  /** Text mode: an array, or an `events` array, is used as it is; any other
      value is wrapped as a single event. Only a null reply fails. */
  function ResolveTextShape(v: Json): (r: Result<seq<Json>, AnalysisError>)
    ensures r.Err? <==> v.JNull?
    ensures v.JArr? ==> r == Ok(v.items)
    ensures !v.JArr? && !v.JNull? && EventsArray(v).Some? ==> r == Ok(EventsArray(v).value)
    ensures !v.JArr? && !v.JNull? && EventsArray(v).None? ==> r == Ok([v])
  {
    if v.JArr? then Ok(v.items)
    else if v.JNull? then Err(NullReply)
    else if EventsArray(v).Some? then Ok(EventsArray(v).value)
    else Ok([v])
  }

  // ---------------------------------------------------------------------
  // Raw events

  /** `RawCalendarEvent`: every field a string, null or absent. */
  datatype RawEvent = RawEvent(
    activity: Option<string>,
    date: Option<string>,
    endDate: Option<string>,
    startTime: Option<string>,
    endTime: Option<string>,
    location: Option<string>,
    notes: Option<string>,
    recurrence: Option<string>)

  /** A field read at its declared type `string | null | undefined`. */
  function StringField(v: Json, key: string): (r: Option<string>)
    requires !v.JNull?
    ensures r.Some? ==> Property(v, key) == Some(JStr(r.value))
  {
    match Property(v, key)
    case Some(JStr(s)) => Some(s)
    case _ => None
  }

  /** One element of the resolved list as the normalizer reads it. Reading a
      property of `null` throws; any other non-object has none of the fields. */
  function ReadRaw(v: Json): (r: Result<RawEvent, AnalysisError>)
    ensures r.Err? <==> v.JNull?
  {
    if v.JNull? then Err(NullEvent)
    else Ok(RawEvent(
      StringField(v, "activity"), StringField(v, "date"), StringField(v, "endDate"),
      StringField(v, "startTime"), StringField(v, "endTime"), StringField(v, "location"),
      StringField(v, "notes"), StringField(v, "recurrence")))
  }

  // ---------------------------------------------------------------------
  // End-time inference

  function Pad2(n: nat): string {
    PadStart(DecimalString(n), 2, '0')
  }

  /** The `HH:MM` text the source reads back from a Date: hours and minutes
      through `String(...).padStart(2, '0')`. */
  function HoursMinutesText(minute: nat): string
    requires minute < 1440
  {
    Pad2(minute / 60) + ":" + Pad2(minute % 60)
  }

  lemma HoursMinutesIsClock(minute: nat)
    requires minute < 1440
    ensures HoursMinutesText(minute) == ClockText(minute)
  {
    TwoDigits(minute / 60);
    TwoDigits(minute % 60);
  }

  /** The minute of the day that `setHours(h, m + 15)` lands on, for finite
      numbers: both arguments are truncated and the overflow carries into
      the date. */
  function SetHoursQuarterLater(h: real, m: real): (minute: nat)
    ensures minute < 1440
  {
    (Truncate(h) * 60 + Truncate(m + 15.0)) % 1440
  }

  /** The time `setHours(h, m + 15)` leaves on the throwaway date, as a
      minute of the day; None is the Invalid Date a non-numeric piece (or a
      missing minutes piece) produces. */
  function QuarterHourMinute(start: string): (r: Option<nat>)
    ensures r.Some? ==> r.value < 1440
  {
    var parts := Split(start, ':');
    if |parts| < 2 then None
    else
      var h, m := ParseNumber(parts[0]), ParseNumber(parts[1]);
      if h.Some? && m.Some? then Some(SetHoursQuarterLater(h.value, m.value)) else None
  }

  /** Reading hours and minutes back, zero-padded; an Invalid Date reads as NaN. */
  function TimeText(t: Option<nat>): string
    requires t.Some? ==> t.value < 1440
  {
    if t.Some? then HoursMinutesText(t.value) else "NaN:NaN"
  }

  /** `startTime` plus 15 minutes as the source computes it. */
  function QuarterHourAfter(start: string): string {
    TimeText(QuarterHourMinute(start))
  }

  /** An `HH:MM` text splits at its colon into two numerals read as their values. */
  lemma ClockPieces(start: string)
    requires IsClockText(start)
    ensures Split(start, ':') == [start[..2], start[3..]]
    ensures ParseNumber(start[..2]) == Some(DigitsValue(start[..2]) as real)
    ensures ParseNumber(start[3..]) == Some(DigitsValue(start[3..]) as real)
  {
    var h, m := start[..2], start[3..];
    assert start == h + [':'] + m;
    assert ':' !in h && ':' !in m by {
      assert forall i :: 0 <= i < 2 ==> h[i] == start[i] && m[i] == start[i + 3];
    }
    SplitAround(h, m, ':');
    ParseDigits(h);
    ParseDigits(m);
  }

  lemma TruncateWhole(n: nat)
    ensures Truncate(n as real) == n
  {
  }

  /** For a well-formed `HH:MM` start, the inferred end is the `HH:MM` text of
      (start + 15 minutes) mod 24 hours. */
  lemma QuarterHourAfterClock(start: string)
    requires IsClockText(start)
    ensures QuarterHourAfter(start) == ClockText((ClockMinutes(start) + 15) % 1440)
  {
    var later := (ClockMinutes(start) + 15) % 1440;
    QuarterHourMinuteClock(start);
    assert QuarterHourAfter(start) == HoursMinutesText(later);
    HoursMinutesIsClock(later);
  }

  lemma QuarterHourMinuteClock(start: string)
    requires IsClockText(start)
    ensures QuarterHourMinute(start) == Some((ClockMinutes(start) + 15) % 1440)
  {
    var h, m := DigitsValue(start[..2]), DigitsValue(start[3..]);
    var later := (ClockMinutes(start) + 15) % 1440;
    assert SetHoursQuarterLater(h as real, m as real) == later by {
      WholeSetHours(h, m);
      assert ClockMinutes(start) == h * 60 + m;
    }
    ClockStartParses(start);
  }

  /** The hours and minutes pieces of an `HH:MM` start are read as numbers. */
  lemma ClockStartParses(start: string)
    requires IsClockText(start)
    ensures QuarterHourMinute(start)
      == Some(SetHoursQuarterLater(DigitsValue(start[..2]) as real, DigitsValue(start[3..]) as real))
  {
    ClockPieces(start);
    var parts := Split(start, ':');
    var h, m := ParseNumber(parts[0]), ParseNumber(parts[1]);
    assert h == Some(DigitsValue(start[..2]) as real);
    assert m == Some(DigitsValue(start[3..]) as real);
    assert QuarterHourMinute(start) == Some(SetHoursQuarterLater(h.value, m.value));
  }

  /** On whole hours and minutes, `setHours(h, m + 15)` is plain minute arithmetic. */
  lemma WholeSetHours(h: nat, m: nat)
    ensures SetHoursQuarterLater(h as real, m as real) == (h * 60 + m + 15) % 1440
  {
    TruncateWhole(h);
    TruncateWhole(m + 15);
    assert m as real + 15.0 == (m + 15) as real;
  }

  lemma ElevenFifty(s: string)
    requires s == "23:50"
    ensures IsClockText(s) && ClockMinutes(s) == 1430
  {
    assert s[..2] == "23" && s[3..] == "50";
    TwoDigitValue("23");
    TwoDigitValue("50");
  }

  /** The documented wrap past midnight: 23:50 ends at 00:05. */
  lemma QuarterHourExample(s: string)
    requires s == "23:50"
    ensures QuarterHourAfter(s) == "00:05"
  {
    ElevenFifty(s);
    TenToMidnight(s);
  }

  lemma TenToMidnight(s: string)
    requires IsClockText(s) && ClockMinutes(s) == 1430
    ensures QuarterHourAfter(s) == "00:05"
  {
    assert (ClockMinutes(s) + 15) % 1440 == 5;
    QuarterHourAfterClock(s);
    FiveAfterMidnight();
  }

  lemma FiveAfterMidnight()
    ensures ClockText(5) == "00:05"
  {
  }

  // ---------------------------------------------------------------------
  // normalizeEvent

  /** Defaults every field and infers the end time: a start time with no
      end, or an end equal to it, gets start + 15 minutes; a different end
      is kept verbatim; without a start nothing is inferred and any end is
      kept (it is not cleared). Truthy fields pass through unchanged. */
  function NormalizeEvent(raw: RawEvent, today: string): (e: Event)
    ensures e.activity == (if Truthy(raw.activity) then raw.activity.value else UntitledEvent)
    ensures e.date == (if Truthy(raw.date) then raw.date.value else today)
    ensures e.endDate == (if Truthy(raw.endDate) then raw.endDate else None)
    ensures e.location == Some(if Truthy(raw.location) then raw.location.value else "")
    ensures e.notes == Some(if Truthy(raw.notes) then raw.notes.value else "")
    ensures e.recurrence == Some(if Truthy(raw.recurrence) then raw.recurrence.value else "none")
    ensures !Truthy(raw.startTime) ==> e.startTime == None && e.endTime == OrNone(raw.endTime)
    ensures Truthy(raw.startTime) ==> e.startTime == raw.startTime
    ensures Truthy(raw.startTime) && Truthy(raw.endTime) && raw.endTime != raw.startTime ==> e.endTime == raw.endTime
    ensures Truthy(raw.startTime) && (!Truthy(raw.endTime) || raw.endTime == raw.startTime) ==>
      e.endTime == Some(QuarterHourAfter(raw.startTime.value))
  {
    var startTime := OrNone(raw.startTime);
    var endTime := OrNone(raw.endTime);
    var endTime :=
      if Truthy(startTime) && (!Truthy(endTime) || endTime == startTime) then
        Some(QuarterHourAfter(startTime.value))
      else endTime;
    Event(
      Or(raw.activity, UntitledEvent),
      Or(raw.date, today),
      OrNone(raw.endDate),
      startTime,
      endTime,
      Some(Or(raw.location, "")),
      Some(Or(raw.notes, "")),
      Some(Or(raw.recurrence, "none")))
  }

  /** The end-time rule on a documented `HH:MM` start: a missing end, or
      one equal to the start, becomes (start + 15 minutes) mod 24 hours as
      `HH:MM`, on the same date. */
  lemma NormalizeQuarterHour(raw: RawEvent, today: string)
    requires Truthy(raw.startTime) && IsClockText(raw.startTime.value)
    requires !Truthy(raw.endTime) || raw.endTime == raw.startTime
    ensures NormalizeEvent(raw, today).endTime == Some(ClockText((ClockMinutes(raw.startTime.value) + 15) % 1440))
    ensures NormalizeEvent(raw, today).date == NormalizeEvent(raw.(endTime := None), today).date
  {
    QuarterHourAfterClock(raw.startTime.value);
  }

  /** A normalized event read back as a raw record, as it would be if
      serialized and decoded again. */
  function AsRaw(e: Event): RawEvent {
    RawEvent(Some(e.activity), Some(e.date), e.endDate, e.startTime, e.endTime, e.location, e.notes, e.recurrence)
  }

  /** Normalizing an already normalized event changes nothing. */
  lemma NormalizeIdempotent(raw: RawEvent, today: string)
    ensures NormalizeEvent(AsRaw(NormalizeEvent(raw, today)), today) == NormalizeEvent(raw, today)
  {
  }

  /** Fields in their documented formats stay so: activity is never empty,
      and a timed event always ends up with an `HH:MM` end time. */
  lemma NormalizeDocumented(raw: RawEvent, today: string)
    requires today != ""
    requires raw.startTime.Some? ==> IsClockText(raw.startTime.value)
    requires raw.endTime.Some? ==> IsClockText(raw.endTime.value)
    ensures NormalizeEvent(raw, today).activity != ""
    ensures NormalizeEvent(raw, today).date != ""
    ensures NormalizeEvent(raw, today).startTime.Some? ==>
      IsClockText(NormalizeEvent(raw, today).startTime.value)
      && NormalizeEvent(raw, today).endTime.Some? && IsClockText(NormalizeEvent(raw, today).endTime.value)
  {
    var e := NormalizeEvent(raw, today);
    if Truthy(raw.startTime) && (!Truthy(raw.endTime) || raw.endTime == raw.startTime) {
      var later := (ClockMinutes(raw.startTime.value) + 15) % 1440;
      NormalizeQuarterHour(raw, today);
      ClockTextRoundTrip(later);
    }
  }

  /** `events.map(normalizeEvent)`: same length and order, one normalized
      event per element; the first null element aborts with a TypeError. */
  function NormalizeAll(items: seq<Json>, today: string): (r: Result<seq<Event>, AnalysisError>)
    ensures r.Ok? <==> forall i :: 0 <= i < |items| ==> !items[i].JNull?
    ensures r.Err? ==> r.error == NullEvent
    ensures r.Ok? ==> (|r.value| == |items|
      && forall i :: 0 <= i < |items| ==> r.value[i] == NormalizeEvent(ReadRaw(items[i]).value, today))
  {
    if items == [] then Ok([])
    else match ReadRaw(items[0])
      case Err(e) => Err(e)
      case Ok(raw) =>
        match NormalizeAll(items[1..], today)
        case Err(e) => Err(e)
        case Ok(rest) => Ok([NormalizeEvent(raw, today)] + rest)
  }

  // ---------------------------------------------------------------------
  // The two analyses, from the reply onwards

  /** Token counters, passed through untouched. */
  datatype Usage = Usage(promptTokens: int, completionTokens: int, totalTokens: int)

  datatype Analysis = Analysis(events: seq<Event>, usage: Option<Usage>)

  /** `analyzeScheduleImage` after the service has answered. */
  function AnalyzeImageReply(content: Option<string>, usage: Option<Usage>,
                             decode: string -> Option<Json>, today: string): (r: Result<Analysis, AnalysisError>)
    ensures !Truthy(content) ==> r == Err(NoContent)
    ensures Truthy(content) && decode(StripFences(content.value)).None? ==> r == Err(MalformedJson)
    ensures r.Ok? ==> |r.value.events| >= 1 && r.value.usage == usage
    ensures r.Ok? ==> (Truthy(content) && decode(StripFences(content.value)).Some?
      && ResolveImageShape(decode(StripFences(content.value)).value).Ok?
      && var items := ResolveImageShape(decode(StripFences(content.value)).value).value;
      (forall i :: 0 <= i < |items| ==> !items[i].JNull?)
      && |r.value.events| == |items|
      && forall i :: 0 <= i < |items| ==> r.value.events[i] == NormalizeEvent(ReadRaw(items[i]).value, today))
    ensures Truthy(content) && decode(StripFences(content.value)).Some? ==>
      var shape := ResolveImageShape(decode(StripFences(content.value)).value);
      (shape.Err? ==> r == Err(shape.error))
      && (shape == Ok([]) ==> r == Err(NoEvents))
      && (shape.Ok? && |shape.value| > 0 && (exists i :: 0 <= i < |shape.value| && shape.value[i].JNull?) ==>
            r == Err(NullEvent))
      && (shape.Ok? && |shape.value| > 0 && (forall i :: 0 <= i < |shape.value| ==> !shape.value[i].JNull?) ==>
            r.Ok?)
  {
    if !Truthy(content) then Err(NoContent)
    else match decode(StripFences(content.value))
      case None => Err(MalformedJson)
      case Some(v) =>
        match ResolveImageShape(v)
        case Err(e) => Err(e)
        case Ok(items) =>
          if |items| == 0 then Err(NoEvents)
          else match NormalizeAll(items, today)
            case Err(e) => Err(e)
            case Ok(events) => Ok(Analysis(events, usage))
  }

  /** `analyzeScheduleText` after the service has answered: no structure
      error and no emptiness check. */
  function AnalyzeTextReply(content: Option<string>, usage: Option<Usage>,
                            decode: string -> Option<Json>, today: string): (r: Result<Analysis, AnalysisError>)
    ensures !Truthy(content) ==> r == Err(NoContent)
    ensures Truthy(content) && decode(StripFences(content.value)).None? ==> r == Err(MalformedJson)
    ensures r.Err? ==> r.error in {NoContent, MalformedJson, NullReply, NullEvent}
    ensures r.Ok? ==> r.value.usage == usage
    ensures r.Ok? ==> (Truthy(content) && decode(StripFences(content.value)).Some?
      && ResolveTextShape(decode(StripFences(content.value)).value).Ok?
      && var items := ResolveTextShape(decode(StripFences(content.value)).value).value;
      (forall i :: 0 <= i < |items| ==> !items[i].JNull?)
      && |r.value.events| == |items|
      && forall i :: 0 <= i < |items| ==> r.value.events[i] == NormalizeEvent(ReadRaw(items[i]).value, today))
    ensures Truthy(content) && decode(StripFences(content.value)).Some? ==>
      var shape := ResolveTextShape(decode(StripFences(content.value)).value);
      (shape.Err? ==> r == Err(shape.error))
      && (shape.Ok? && (exists i :: 0 <= i < |shape.value| && shape.value[i].JNull?) ==> r == Err(NullEvent))
      && (shape.Ok? && (forall i :: 0 <= i < |shape.value| ==> !shape.value[i].JNull?) ==> r.Ok?)
  {
    if !Truthy(content) then Err(NoContent)
    else match decode(StripFences(content.value))
      case None => Err(MalformedJson)
      case Some(v) =>
        match ResolveTextShape(v)
        case Err(e) => Err(e)
        case Ok(items) =>
          match NormalizeAll(items, today)
          case Err(e) => Err(e)
          case Ok(events) => Ok(Analysis(events, usage))
  }

  /** An empty list of events is an error for a photo and an empty result for pasted text. */
  lemma EmptyReplyContrast(content: string, usage: Option<Usage>, decode: string -> Option<Json>, today: string)
    requires content != "" && decode(StripFences(content)) == Some(JArr([]))
    ensures AnalyzeImageReply(Some(content), usage, decode, today) == Err(NoEvents)
    ensures AnalyzeTextReply(Some(content), usage, decode, today) == Ok(Analysis([], usage))
  {
  }

  /** The "single array-valued field" rule on a reply shaped like
      `{"schedule": [{"activity": "X", "date": "2025-01-01"}]}`. */
  lemma WrapperKeyExample(x: Json)
    requires !x.JArr?
    ensures ResolveImageShape(JObj([Member("schedule", JArr([x]))])) == Ok([x])
  {
    var v := JObj([Member("schedule", JArr([x]))]);
    assert Values(v)[0] == JArr([x]);
  }
}
