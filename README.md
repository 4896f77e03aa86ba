# CalSnap core, modelled in Dafny

CalSnap turns a photo or a pasted text of a schedule into calendar events.
A vision/text model answers with JSON. The app then does the following:

- strips code fences from the reply;
- locates the list of events in it;
- normalizes each event, inferring an end time of start + 15 minutes;
- shows the events in an editable table;
- exports them as a Google Calendar link or as an iCalendar file.

Around this sit several small pieces of state:

- a free-usage quota;
- a payment webhook that grants credits;
- an upload validator;
- a log bus and its activity panel;
- the interface language.

This project models that core and proves what each part promises. It has
one module per source file, plus shared helpers:

| module | source | form |
|---|---|---|
| `Llm` | calsnap/src/lib/llm.ts | functions: fence stripping, shape resolution, `normalizeEvent`, the two analyses from the reply onwards |
| `Export` | calsnap/src/lib/export.ts | functions for the Google link; a `Calendar` class and a looping method for `generateIcsFile` |
| `Display` | calsnap/src/lib/utils.ts | function `formatDateTime` |
| `Types` | calsnap/src/types/index.ts | the event record, JavaScript truthiness, the `HH:MM` format |
| `ResultsTable` | calsnap/src/components/ResultsTable.tsx | row defaults and editor save rules as functions; the table state as a class |
| `Usage` | calsnap/src/contexts/UsageContext.tsx | a class for the quota state, and a step function with lemmas over call sequences |
| `Webhook` | supabase/functions/midtrans-webhook/index.ts | the status dispatch and request handler as functions; the profiles table as a class |
| `Upload` | calsnap/src/components/UploadZone.tsx | the file check as a function; the zone's state as a class |
| `Logger` | calsnap/src/lib/logger.ts | a class for the listener set with a fan-out loop |
| `ActivityLog` | calsnap/src/components/ActivityLog.tsx | the 50-entry buffer and copy text as functions; the panel state as a class |
| `Language` | calsnap/src/context/LanguageContext.tsx | the start-up choice and `t` as functions; the provider as a class |
| `TextOps`, `Json`, `CivilDates`, `Wrappers` | — | JavaScript string operations (`replace`, `trim`, `split`, `padStart`, `Number`), the decoded JSON value, and Gregorian dates in ISO form |

Things the source gets from its environment become parameters:

- today's date;
- the browser's `toLocaleDateString`;
- `JSON.parse`, as a function that returns None on a syntax error;
- the `HH:mm:ss` formatter;
- random log ids and timestamps;
- the outcome of each database call in the webhook.

## Model

| member | source | states |
|---|---|---|
| Llm.RemoveFencesPlain | calsnap/src/lib/llm.ts:57 | the global fence replace leaves text without a backtick unchanged |
| Llm.RemoveFencesBeforeClose | calsnap/src/lib/llm.ts:57 | a closing fence after backtick-free text is the only match, and it is deleted |
| Llm.StripWrapped | calsnap/src/lib/llm.ts:57 | a reply wrapped exactly in a ```` ```json ```` fence yields its trimmed inner text |
| Llm.StripBare | calsnap/src/lib/llm.ts:57 | a reply without fences is only trimmed |
| Llm.ResolveImageShape | calsnap/src/lib/llm.ts:68-84 | image mode, first match wins: the array itself; else its `events` array; else the first array-valued property in key order; else the object as one event when `activity` and `date` are truthy; otherwise "could not parse". A null reply fails |
| Llm.ResolveTextShape | calsnap/src/lib/llm.ts:140-146 | text mode uses an array or an `events` array as it is and wraps any other value as one event; it fails exactly on a null reply |
| Llm.WrapperKeyExample | calsnap/src/lib/llm.ts:73-76 | `{"schedule": [x]}` resolves to `[x]` through the first-array-property rule |
| Llm.StringField | calsnap/src/lib/llm.ts:161-170 | a raw field is present only when the property holds a JSON string, and then it is that string |
| Llm.ReadRaw | calsnap/src/lib/llm.ts:172-173 | reading an element fails exactly when the element is null |
| Llm.HoursMinutesIsClock | calsnap/src/lib/llm.ts:184-186 | padding hours and minutes to two digits gives the canonical `HH:MM` text of that minute |
| Llm.SetHoursQuarterLater | calsnap/src/lib/llm.ts:183 | `setHours(h, m + 15)` on finite numbers lands on a minute of the day below 1440; the overflow carries into the throwaway date |
| Llm.QuarterHourMinute | calsnap/src/lib/llm.ts:181-183 | a start that reads as two numbers gives a minute of the day below 1440; otherwise it is an Invalid Date |
| Llm.ClockPieces | calsnap/src/lib/llm.ts:181 | an `HH:MM` start splits at its colon into two numerals that `Number` reads as their values |
| Llm.QuarterHourMinuteClock | calsnap/src/lib/llm.ts:181-183 | for an `HH:MM` start, the new time is (h*60 + m + 15) mod 1440 |
| Llm.QuarterHourAfterClock | calsnap/src/lib/llm.ts:178-186 | for an `HH:MM` start, the inferred end is the `HH:MM` text of (start + 15 minutes) mod 24 hours |
| Llm.QuarterHourExample | calsnap/src/lib/llm.ts:178-186 | 23:50 ends at 00:05 |
| Llm.NormalizeEvent | calsnap/src/lib/llm.ts:172-204 | every default (activity "Untitled Event", date today, location and notes "", recurrence "none"); truthy fields pass unchanged; a missing end, or one equal to the start, becomes start + 15 minutes; a different end is kept; without a start the end is not cleared |
| Llm.NormalizeQuarterHour | calsnap/src/lib/llm.ts:178-199 | with an `HH:MM` start and no distinct end, the end is (start + 15) mod 24 h as `HH:MM` and the date is unchanged (no carry into the next day) |
| Llm.NormalizeIdempotent | calsnap/src/lib/llm.ts:194-203 | normalizing an already normalized event changes nothing |
| Llm.NormalizeDocumented | calsnap/src/lib/llm.ts:172-204 | documented inputs give documented outputs: activity and date are non-empty, and a timed event gets an `HH:MM` end time |
| Llm.NormalizeAll | calsnap/src/lib/llm.ts:94 | `events.map(normalizeEvent)` keeps length and order, one normalized event per element; it fails exactly when some element is null |
| Llm.AnalyzeImageReply | calsnap/src/lib/llm.ts:54-98 | the error for empty content and for unparsable JSON; a structure error is passed through; an empty resolved list is "No events extracted from image"; a null element is the TypeError; a non-empty list without nulls succeeds, passes `usage` through, and is the normalization of the list |
| Llm.AnalyzeTextReply | calsnap/src/lib/llm.ts:127-151 | the same chain without the structure and emptiness errors: any resolved list without nulls succeeds, the empty one included; only the content, parse and null errors remain |
| Llm.EmptyReplyContrast | calsnap/src/lib/llm.ts:89-91 | a reply holding an empty list is an error for a photo and an empty result for pasted text |
| Export.AllDayDates | calsnap/src/lib/export.ts:15-21 | the all-day `dates` value fails (toISOString throws) exactly when the date is not a valid `YYYY-MM-DD` date, the documented format |
| Export.AllDayDatesMeaning | calsnap/src/lib/export.ts:17-21 | the all-day `dates` value is two basic-format dates: the event's date and the calendar day after it, one day number apart |
| Export.TimedDates | calsnap/src/lib/export.ts:24-35 | both endpoints use the event's date; without an end time the end endpoint repeats the start |
| Export.StampMeaning | calsnap/src/lib/export.ts:24-28 | a timed endpoint is `YYYYMMDD` + `T` + `HHMM` + `00`, and its date part reads back as the event's date |
| Export.ClockWithoutColon | calsnap/src/lib/export.ts:26 | `time.replace(':', '')` on `HH:MM` drops exactly the colon |
| Export.CompactIso | calsnap/src/lib/export.ts:17 | removing the hyphens of an ISO date leaves its three numerals side by side |
| Export.CompactIsoReads | calsnap/src/lib/export.ts:17 | the compact form of an ISO date reads back as the same date |
| Export.TimedExample | calsnap/src/lib/export.ts:24-35 | 2025-03-01 from 09:00 to 09:30 gives `20250301T090000/20250301T093000` |
| Export.Optional | calsnap/src/lib/export.ts:38-39 | an optional parameter is set exactly when its value is truthy, and then with that value |
| Export.TemplateParams | calsnap/src/lib/export.ts:11-39 | the parameter keys in order: action, text, dates, then details and location only when notes or location are truthy |
| Export.TemplateParamValues | calsnap/src/lib/export.ts:11-39 | action is TEMPLATE, text is the activity or "Untitled Event", dates is the computed value, details and location are the notes and location or absent |
| Export.GoogleCalendarUrl | calsnap/src/lib/export.ts:3-42 | "#" exactly for a missing event or an empty date; an error exactly for an all-day event with an unreadable date; otherwise the base URL with the template parameters |
| Export.GoogleIgnoresEndDateAndRecurrence | calsnap/src/lib/export.ts:3-42 | the link depends on neither the end date nor the recurrence |
| Export.DateOnly | calsnap/src/lib/export.ts:56 | `new Date(date)` is a valid instant at midnight exactly when the date is a valid `YYYY-MM-DD` date |
| Export.LocalDateTime | calsnap/src/lib/export.ts:64-68 | `new Date(date + 'T' + time)` is valid exactly when the date is a valid `YYYY-MM-DD` date and the time is `HH:MM` with an hour below 24, and then it is that minute of that day |
| Export.AddHour | calsnap/src/lib/export.ts:70 | adding an hour keeps an instant valid and an Invalid Date invalid |
| Export.AddHourIsSixtyMinutes | calsnap/src/lib/export.ts:70 | the hour added is exactly sixty minutes, across midnight, month ends and year ends |
| Export.EntryFor | calsnap/src/lib/export.ts:53-79 | an all-day entry starts at midnight of the date and has no end; a timed entry ends at the end time, or one hour after the start; summary "Untitled Event" by default; description and location passed through |
| Export.IcsEntries | calsnap/src/lib/export.ts:49-50 | never more entries than events |
| Export.IcsEntriesAppend | calsnap/src/lib/export.ts:49-81 | the entries of a schedule are those of its first part followed by those of the rest, so each event contributes on its own and in input order |
| Export.IcsEntriesSingle | calsnap/src/lib/export.ts:50-79 | one event gives exactly its own entry when it has a date, and none otherwise |
| Export.IcsEntriesCover | calsnap/src/lib/export.ts:49-81 | every dated event has its entry, and every entry comes from a dated event |
| Export.IcsIgnoresEndDateAndRecurrence | calsnap/src/lib/export.ts:53-79 | no entry depends on an event's end date or recurrence |
| Export.Calendar.constructor | calsnap/src/lib/export.ts:47 | a new calendar has the given name and no entries |
| Export.Calendar.CreateEvent | calsnap/src/lib/export.ts:55-61 | `createEvent` appends exactly one entry |
| Export.GenerateIcsFile | calsnap/src/lib/export.ts:44-87 | the loop leaves a calendar named "CalSnap Schedule" holding one entry per dated event, in input order, downloaded as schedule.ics |
| CivilDates.DaysInMonth | calsnap/src/lib/export.ts:19 | every month has 28 to 31 days |
| CivilDates.NextDay | calsnap/src/lib/export.ts:18-19 | `setDate(getDate() + 1)` gives a valid date, in the same year or on 1 January of the next |
| CivilDates.NextDayIsSuccessor | calsnap/src/lib/export.ts:19 | the next day is exactly one day number later, across month and year ends and leap days |
| CivilDates.DayNumberInjective | calsnap/src/lib/export.ts:19 | distinct valid dates have distinct day numbers, so the day number is a faithful reference |
| CivilDates.ParseIsoDate | calsnap/src/lib/export.ts:18 | a `YYYY-MM-DD` text that reads is a valid Gregorian date with a four-digit year |
| CivilDates.FormatParseRoundTrip | calsnap/src/lib/export.ts:20 | reading back what toISOString writes gives the same date |
| CivilDates.ParseFormatRoundTrip | calsnap/src/lib/export.ts:18-20 | a text that parses is already the canonical `YYYY-MM-DD` form |
| CivilDates.FormattedPieces | calsnap/src/lib/export.ts:20 | toISOString's date part has the `YYYY-MM-DD` shape and holds the year, month and day |
| TextOps.RemoveAll | calsnap/src/lib/export.ts:17 | `replace(/-/g, '')` removes every hyphen and keeps every other character |
| TextOps.RemoveFirst | calsnap/src/lib/export.ts:26 | `replace(':', '')` removes the first colon and keeps everything around it; without a colon the text is unchanged |
| TextOps.Trim | calsnap/src/lib/llm.ts:57 | the trimmed text neither starts nor ends with white space |
| TextOps.TrimIsMiddle | calsnap/src/lib/llm.ts:57 | trim keeps a contiguous middle and drops only white space |
| TextOps.Split | calsnap/src/lib/llm.ts:181 | split yields at least one piece, no piece holds the separator, and joining the pieces with the separator gives back the text |
| TextOps.SplitAround | calsnap/src/lib/llm.ts:181 | splitting `a:b` without other separators gives exactly `[a, b]` |
| TextOps.SplitJoin | calsnap/src/components/ActivityLog.tsx:22 | split undoes join when no piece holds the separator |
| TextOps.ParseDigits | calsnap/src/lib/llm.ts:181 | `Number` reads a run of digits as its decimal value |
| TextOps.Truncate | calsnap/src/lib/llm.ts:183 | truncation toward zero: within one of the argument, on the side of zero |
| TextOps.PadStart | calsnap/src/lib/llm.ts:184-185 | padStart reaches the width and ends with the original text |
| TextOps.TwoDigits | calsnap/src/lib/llm.ts:184-185 | `String(n).padStart(2, '0')` for n < 100 is its two decimal digits |
| TextOps.AsciiUpper | calsnap/src/components/ActivityLog.tsx:22 | upper-casing maps each lower-case letter to its capital and keeps every other character |
| Json.Property | calsnap/src/lib/llm.ts:70 | a property exists exactly when the value is an object with that key |
| Json.Values | calsnap/src/lib/llm.ts:73 | `Object.values` of an object lists its values in key order |
| Json.FirstArrayIndex | calsnap/src/lib/llm.ts:74 | `find(Array.isArray)` returns the first array, or nothing when there is none |
| Types.ClockMinutes | calsnap/src/types/index.ts:4 | an `HH:MM` text denotes a minute of the day below 1440 |
| Types.ClockTextRoundTrip | calsnap/src/types/index.ts:4-5 | writing a minute as `HH:MM` and reading it back gives the same minute |
| Types.ClockMinutesRoundTrip | calsnap/src/types/index.ts:4-5 | every `HH:MM` text is the canonical text of its minute |
| Display.FormatTime | calsnap/src/lib/utils.ts:28-31 | times are shown verbatim |
| Display.FormatDateTime | calsnap/src/lib/utils.ts:1-37 | no date gives ("No date", ""); a distinct end date gives a "start - end" date range; no start time gives "All day"; otherwise the start, or "start - end" |
| Display.TimeSpanReadsBack | calsnap/src/lib/utils.ts:33-35 | a span of two `HH:MM` times is 13 characters, with each time at a fixed position |
| Display.AllDayIgnoresEndTime | calsnap/src/lib/utils.ts:14-26 | an all-day event shows the same whatever end time it carries, and an end date equal to the date is ignored |
| ResultsTable.SafeEvent | calsnap/src/components/ResultsTable.tsx:239-247 | row defaults: activity "Untitled", empty date, falsy times and end date absent, notes falling back to location then "", recurrence "none" |
| ResultsTable.InitialEditor | calsnap/src/components/ResultsTable.tsx:33-38 | the editor opens in all-day mode iff there is no start time, with the date defaulting to today and the recurrence to "none" |
| ResultsTable.HandleSave | calsnap/src/components/ResultsTable.tsx:41-47 | all-day mode saves no times; timed mode saves the start or 09:00, and the end or null; an empty end date is saved as absent |
| ResultsTable.EditorRoundTrip | calsnap/src/components/ResultsTable.tsx:33-47 | opening a row's editor and saving it unchanged hands back the row's values, except that an all-day row loses its end time |
| ResultsTable.DateTimeUpdates | calsnap/src/components/ResultsTable.tsx:188-193 | five writes on the same row: date, endDate (empty as null), startTime, endTime, recurrence, in that order |
| ResultsTable.AllDaySaveClearsTimes | calsnap/src/components/ResultsTable.tsx:42-43 | saving an all-day editor writes null to both times, and null for an empty end date |
| ResultsTable.Table.constructor | calsnap/src/components/ResultsTable.tsx:185-186 | no editor open, nothing exported, no writes |
| ResultsTable.Table.ToggleEditor | calsnap/src/components/ResultsTable.tsx:268 | the button opens this row's editor, or closes it if it is open |
| ResultsTable.Table.CancelEditor | calsnap/src/components/ResultsTable.tsx:295 | cancel closes the editor and changes nothing else |
| ResultsTable.Table.HandleDateTimeSave | calsnap/src/components/ResultsTable.tsx:188-194 | the five writes are issued and the editor closes |
| ResultsTable.Table.MarkExported | calsnap/src/components/ResultsTable.tsx:453 | the card joins the exported set and every card exported before stays |
| Usage.IncrementStep | calsnap/src/contexts/UsageContext.tsx:54-65 | a call is allowed exactly when `canUpload` held (paid, or count < 5); only an allowed unpaid call counts, by one |
| Usage.UnpaidCountSaturates | calsnap/src/contexts/UsageContext.tsx:57-62 | after n unpaid calls the count is min(count + n, 5) |
| Usage.NeverAboveLimit | calsnap/src/contexts/UsageContext.tsx:57-62 | starting at or below 5, no sequence of calls pushes the count above 5 |
| Usage.PaidNeverCounts | calsnap/src/contexts/UsageContext.tsx:55 | a paid user's calls never count |
| Usage.UsageState.constructor | calsnap/src/contexts/UsageContext.tsx:19-20 | the count starts at 0, unpaid |
| Usage.UsageState.IncrementUsage | calsnap/src/contexts/UsageContext.tsx:54-65 | returns whether an upload was allowed before the call; the count follows the step rule; a counted call persists the new count |
| Usage.UsageState.UserChanged | calsnap/src/contexts/UsageContext.tsx:31-52 | signing out resets the paid flag; a profile answer sets it to `is_paid`, with null read as false; a failed lookup leaves it unchanged |
| Webhook.Dispatch | supabase/functions/midtrans-webhook/index.ts:31-49 | challenged iff capture with fraud "challenge"; a grant iff capture with fraud "accept", or settlement |
| Webhook.SuccessEffect | supabase/functions/midtrans-webhook/index.ts:65-119 | no user id changes nothing; a working RPC decides the table; otherwise only that user's limit becomes (old or 0) + 10, unless the fetch or the update fails |
| Webhook.FallbackGrantsTen | supabase/functions/midtrans-webhook/index.ts:104 | on the fallback path the user's new limit is the old limit (or 0) plus 10, and no other profile changes |
| Webhook.ProfileStore.HandleSuccess | supabase/functions/midtrans-webhook/index.ts:65-119 | the early-return procedure leaves the table as the success effect describes |
| Webhook.HandleRequest | supabase/functions/midtrans-webhook/index.ts:14-63 | OPTIONS answers "ok"; an unreadable body answers 500 and changes nothing; challenged answers "challenged"; otherwise 200 "ok", with the grant applied only when the dispatch grants |
| Webhook.NonPaymentsGrantNothing | supabase/functions/midtrans-webhook/index.ts:43-54 | any status other than capture and settlement answers "ok" and leaves every profile unchanged |
| Upload.CheckFile | calsnap/src/components/UploadZone.tsx:27-38 | the type error iff the type is not allowed; the size error iff an allowed type is above 10 MB; no error iff both checks pass |
| Upload.SizeBoundary | calsnap/src/components/UploadZone.tsx:9-10 | exactly 10 MB passes and one byte more fails; a wrong type reports the type error whatever the size |
| Upload.UploadZone.constructor | calsnap/src/components/UploadZone.tsx:13-15 | not dragging, no error, no preview, nothing selected |
| Upload.UploadZone.ValidateAndProcessFile | calsnap/src/components/UploadZone.tsx:27-47 | the error is the check's result; a passing file is previewed and handed on exactly once; a failing one is not handed on |
| Upload.UploadZone.HandleDrop | calsnap/src/components/UploadZone.tsx:49-59 | the hover ends; a drop while processing, or without files, changes nothing else; otherwise only the first file is checked |
| Upload.UploadZone.HandleFileInput | calsnap/src/components/UploadZone.tsx:61-66 | the first chosen file, if any, is checked |
| Upload.UploadZone.DragOver | calsnap/src/components/UploadZone.tsx:17-20 | a hover shows only while not processing |
| Upload.UploadZone.DragLeave | calsnap/src/components/UploadZone.tsx:22-25 | the hover ends and nothing else changes |
| Upload.UploadZone.ClearFile | calsnap/src/components/UploadZone.tsx:68-72 | preview and error are cleared; what was handed on stays |
| Logger.TypeName | calsnap/src/lib/logger.ts:1 | type names are lower-case words |
| Logger.TypeNamesDistinct | calsnap/src/lib/logger.ts:1 | distinct types have distinct names |
| Logger.FanOut | calsnap/src/lib/logger.ts:22 | one delivery of the same entry per listener, in listener order |
| Logger.WithListener | calsnap/src/lib/logger.ts:29 | `add` keeps the set free of repeats and adds exactly that listener |
| Logger.WithoutListener | calsnap/src/lib/logger.ts:30 | `delete` removes exactly that listener |
| Logger.WithoutKeepsNoRepeats | calsnap/src/lib/logger.ts:30 | removing a listener keeps the set free of repeats |
| Logger.SubscribeTwice | calsnap/src/lib/logger.ts:28-29 | subscribing the same listener twice is subscribing once |
| Logger.RemovedHearsNothing | calsnap/src/lib/logger.ts:22-30 | an unsubscribed listener receives nothing from a later log, and every other listener still does |
| Logger.Bus.constructor | calsnap/src/lib/logger.ts:12 | an empty listener set |
| Logger.Bus.Log | calsnap/src/lib/logger.ts:15-23 | the entry carries the message, type, id and timestamp given, and is handed unchanged to every subscribed listener, in order |
| Logger.Bus.LogInfo | calsnap/src/lib/logger.ts:24 | `info` logs an entry of type info |
| Logger.Bus.LogSuccess | calsnap/src/lib/logger.ts:25 | `success` logs an entry of type success |
| Logger.Bus.LogError | calsnap/src/lib/logger.ts:26 | `error` logs an entry of type error |
| Logger.Bus.LogWarning | calsnap/src/lib/logger.ts:27 | `warning` logs an entry of type warning |
| Logger.Bus.Subscribe | calsnap/src/lib/logger.ts:28-29 | the listener joins the set at most once |
| Logger.Bus.Unsubscribe | calsnap/src/lib/logger.ts:30 | that listener leaves the set |
| ActivityLog.Push | calsnap/src/components/ActivityLog.tsx:16 | the new entry is first; the buffer holds at most 50; earlier entries follow in order, shifted by one |
| ActivityLog.FullBufferDropsOldest | calsnap/src/components/ActivityLog.tsx:16 | a full buffer loses exactly its oldest entry |
| ActivityLog.PushAllKeepsNewest | calsnap/src/components/ActivityLog.tsx:14-17 | after any arrivals the buffer is the latest 50 entries, newest first |
| ActivityLog.NewestFirst | calsnap/src/components/ActivityLog.tsx:16 | from an empty panel the buffer holds min(n, 50) entries and starts with the latest |
| ActivityLog.AppearsOnFirstEntry | calsnap/src/components/ActivityLog.tsx:26 | nothing is rendered for an empty buffer, and something is after any entry |
| ActivityLog.CopyLines | calsnap/src/components/ActivityLog.tsx:22 | one copied line per entry, in buffer order |
| ActivityLog.CopiedLabel | calsnap/src/components/ActivityLog.tsx:22 | each type is copied with its label in capitals: INFO, SUCCESS, ERROR, WARNING |
| ActivityLog.LineHasNoBreak | calsnap/src/components/ActivityLog.tsx:22 | a copied line has no line break when the message and the time have none |
| ActivityLog.CopiedTextSplitsIntoLines | calsnap/src/components/ActivityLog.tsx:21-23 | the copied text splits back into exactly the lines, one per entry |
| ActivityLog.Panel.constructor | calsnap/src/components/ActivityLog.tsx:9-10 | an empty, closed panel |
| ActivityLog.Panel.OnEntry | calsnap/src/components/ActivityLog.tsx:15-17 | the listener pushes the entry onto the buffer |
| ActivityLog.Panel.Toggle | calsnap/src/components/ActivityLog.tsx:34 | the header click flips the panel open or closed |
| Language.InitialLanguage | calsnap/src/context/LanguageContext.tsx:6-15 | a saved "en" or "id" wins; any other saved value is ignored; then a browser language starting with "id" picks Indonesian; otherwise English |
| Language.SavedChoiceSticks | calsnap/src/context/LanguageContext.tsx:6-20 | a saved choice is the choice at the next start, whatever the browser says |
| Language.Translate | calsnap/src/context/LanguageContext.tsx:22-24 | the translation when it is present and non-empty, otherwise the key |
| Language.NeverBlank | calsnap/src/context/LanguageContext.tsx:22-24 | a non-empty key never shows as an empty label |
| Language.Provider.constructor | calsnap/src/context/LanguageContext.tsx:6-15 | the provider starts in the start-up choice |
| Language.Provider.SetLanguage | calsnap/src/context/LanguageContext.tsx:17-20 | sets and saves the same language, so that the next start picks it again |

## Where the code and its comments part ways

The model follows the code in each of these:

- The comment at llm.ts:188 says the original end time is kept if parsing
  fails. But a start time whose pieces `Number` cannot read makes `setHours`
  produce an Invalid Date rather than throw. Reading it back gives "NaN:NaN",
  and that becomes the end time. The `catch` (llm.ts:187-190) is never
  reached (`Llm.QuarterHourMinute`, `Llm.TimeText`).
- The rule stated at llm.ts:176-177 is "startTime + 15 minutes". The code
  computes it on a throwaway date and keeps only the clock time, so the end
  wraps past midnight on the same date: 23:50 ends at 00:05, before the
  start (`Llm.NormalizeQuarterHour` keeps the date).
- `normalizeEvent` carries an `endDate` (llm.ts:197), but the iCalendar
  export never reads it. A timed entry ends at the end time on the event's
  own date, or one hour after the start (`Export.EntryFor`,
  `Export.IcsIgnoresEndDateAndRecurrence`).

## Left out

- Network and I/O are not modelled:
  - the `supabase.functions.invoke` calls;
  - the Supabase RPC and table calls, whose outcomes are parameters of `Webhook.SuccessEffect`;
  - `req.json()`, which is the `body`/`parseError` parameter;
  - the clipboard write;
  - local and session storage, recorded only as the last value persisted.
- `JSON.parse` is the parameter `decode`. Objects are key/value lists taken in JavaScript's enumeration order.
- Llm.StringField: a field holding a non-string JSON value (a number, a boolean, an object) is read as absent. JavaScript would pass a truthy one through.
- TextOps.ParseNumber: `Number` is modelled for an optional sign, decimal digits with an optional fraction, and surrounding white space. Exponents, hexadecimal, `Infinity` and Date range limits are not modelled.
- Llm.AnalyzeImageReply and Llm.AnalyzeTextReply: the logger calls inside the two analyses are not modelled, and neither is the "No data received" error raised before the reply is read.
- Export.GoogleCalendarUrl: the form-encoding of the query (`URLSearchParams.toString`) is not modelled; the link is its ordered parameter list.
- Export.AllDayDatesMeaning requires a next day with a four-digit year. toISOString writes year 10000 as `+010000`, and that case is not modelled.
- CivilDates.ParseIsoDate, Export.DateOnly, Export.LocalDateTime and Export.AllDayDates: `new Date` is modelled only on the formats the event record documents (types/index.ts:3-5), `YYYY-MM-DD` and `HH:MM` with an hour below 24. Every other text is an Invalid Date in the model. That includes forms a JavaScript engine does accept: seconds (`…T09:00:00`), `T24:00`, six-digit years (`+002025-03-01`), and the lenient fallback readings of some engines (`2025-02-30` read as 2 March, `2025-3-1`). So "exactly when `new Date` cannot read the date" holds for texts of that shape.
- Export.Calendar.CreateEvent and Export.GenerateIcsFile: `ical-generator` is not part of this model. The model assumes `createEvent` accepts any entry. If the library rejects an Invalid Date start or end with an exception, which its source would decide, the export would stop at that event. The model instead keeps the entry and carries on.
- The mix of UTC parsing and local `setDate` in the all-day branch, and time zones and daylight saving in general: dates are civil dates and instants are local minutes.
- Export.GenerateIcsFile: the iCalendar text, which a library produces, and the Blob and anchor download steps are not modelled.
- Display.FormatDateTime: `toLocaleDateString` is the parameter `localeDate`. Its `catch` branch is not modelled, because nothing in the `try` throws.
- Usage.UsageState: reading the stored count back on mount (`parseInt`) is not modelled. The profile query is the `profile` parameter of `UserChanged`.
- Webhook.HandleRequest:
  - only string-valued notification fields are modelled, so `==` is string equality;
  - an exception thrown by the database client inside `handleSuccess` would answer 500, and it is not modelled;
  - the `order_id` field is carried but only logged, and logging is not modelled.
- Upload.UploadZone.ValidateAndProcessFile: the file reader is asynchronous, so in the source the preview appears after `onFileSelect` is called. The model sets both in one step and does not capture that order.
- Logger.Bus.Log: a listener that subscribes or unsubscribes while an entry is being delivered is not modelled. Listeners are identities, and what one does with an entry is recorded as a delivery.
- ActivityLog.CopyLines: the `HH:mm:ss` formatting of a timestamp is the parameter `clock`.
- Language.Translate: the translations table is a parameter, and its contents are not part of this model.
- ResultsTable.Table.HandleDateTimeSave and ResultsTable.Table.MarkExported: the `logger.info` calls in the date/time save (ResultsTable.tsx:195) and in the Google export button (ResultsTable.tsx:452) are not modelled. They only add an entry to the log bus, which `Logger.Bus.Log` models on its own.
- The async wrappers, the React rendering, the telemetry calls and the other components of the app are not part of this model.
