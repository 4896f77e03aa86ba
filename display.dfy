/** The two display lines of an event (calsnap/src/lib/utils.ts): a date
    line, a range when a distinct end date is given, and a time line. The
    browser's `toLocaleDateString` is the parameter `localeDate`, from the
    date text to what it shows. */
module Display {
  import opened Wrappers
  import opened Types

  datatype Shown = Shown(dateStr: string, timeStr: string)

  const NoDate: string := "No date"
  const AllDay: string := "All day"

  /** The inner `formatTime`: a falsy time shows as nothing, any other verbatim. */
  function FormatTime(t: string): (r: string)
    ensures r == t
  {
    if t == "" then "" else t
  }

  /** `formatDateTime(date, endDate, startTime, endTime)`. */
  function FormatDateTime(date: Option<string>, endDate: Option<string>, startTime: Option<string>,
                          endTime: Option<string>, localeDate: string -> string): (r: Shown)
    ensures !Truthy(date) ==> r == Shown(NoDate, "")
    ensures Truthy(date) ==> (r.dateStr ==
      if Truthy(endDate) && endDate.value != date.value
      then localeDate(date.value) + " - " + localeDate(endDate.value)
      else localeDate(date.value))
    ensures Truthy(date) && !Truthy(startTime) ==> r.timeStr == AllDay
    ensures Truthy(date) && Truthy(startTime) && !Truthy(endTime) ==> r.timeStr == startTime.value
    ensures Truthy(date) && Truthy(startTime) && Truthy(endTime) ==>
      r.timeStr == startTime.value + " - " + endTime.value
  {
    if !Truthy(date) then Shown(NoDate, "")
    else
      var startDateStr := localeDate(date.value);
      var dateStr :=
        if Truthy(endDate) && endDate.value != date.value then startDateStr + " - " + localeDate(endDate.value)
        else startDateStr;
      if !Truthy(startTime) then Shown(dateStr, AllDay)
      else
        var timeStr :=
          if Truthy(endTime) then FormatTime(startTime.value) + " - " + FormatTime(endTime.value)
          else FormatTime(startTime.value);
        Shown(dateStr, timeStr)
  }

  /** A time span of two documented `HH:MM` times shows both times verbatim,
      and each can be read back from its fixed position. */
  lemma TimeSpanReadsBack(date: string, endDate: Option<string>, start: string, end: string,
                            localeDate: string -> string)
    requires date != "" && IsClockText(start) && IsClockText(end)
    ensures var t := FormatDateTime(Some(date), endDate, Some(start), Some(end), localeDate).timeStr;
      |t| == 13 && t[..5] == start && t[5..8] == " - " && t[8..] == end
  {
    var t := FormatDateTime(Some(date), endDate, Some(start), Some(end), localeDate).timeStr;
    assert t == start + " - " + end;
    assert (start + " - " + end)[..5] == start;
    assert (start + " - " + end)[8..] == end;
  }

  /** An all-day event shows "All day" whatever end time it still carries,
      and the end date only matters when it differs from the date. */
  lemma AllDayIgnoresEndTime(date: string, endDate: Option<string>, endTime: Option<string>,
                             localeDate: string -> string)
    requires date != ""
    ensures FormatDateTime(Some(date), endDate, None, endTime, localeDate)
      == FormatDateTime(Some(date), if endDate == Some(date) then None else endDate, None, None, localeDate)
  {
  }
}
