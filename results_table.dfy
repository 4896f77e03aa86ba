/** The results table's edit rules (calsnap/src/components/ResultsTable.tsx):
    the defaults a row is shown with, the date/time editor's initial state
    and what its Save button hands back, and the table state that records
    which editor is open, which cards were exported and which `onUpdate`
    calls were issued. "Today" is a parameter. */
module ResultsTable {
  import opened Wrappers
  import opened Types

  // ---------------------------------------------------------------------
  // Row defaults

  const Untitled: string := "Untitled"

  /** `safeEvent`: what a row shows and hands to the editor. */
  datatype SafeRow = SafeRow(
    activity: string,
    date: string,
    endDate: Option<string>,
    startTime: Option<string>,
    endTime: Option<string>,
    notes: string,
    recurrence: string)

  /** The row defaults, read through `event?.` so that a missing event
      shows as an untitled, undated, all-day row. */
  function SafeEvent(event: Option<Event>): (row: SafeRow)
    ensures row.activity != "" && row.recurrence != ""
    ensures event.Some? && event.value.activity != "" ==> row.activity == event.value.activity
    ensures event.None? || event.value.activity == "" ==> row.activity == Untitled
    ensures row.date == if event.Some? then event.value.date else ""
    ensures row.endDate == (if event.Some? then OrNone(event.value.endDate) else None)
    ensures row.startTime == (if event.Some? then OrNone(event.value.startTime) else None)
    ensures row.endTime == (if event.Some? then OrNone(event.value.endTime) else None)
    ensures row.notes == if event.None? then "" else Or(event.value.notes, Or(event.value.location, ""))
    ensures row.recurrence == if event.Some? then Or(event.value.recurrence, "none") else "none"
    ensures (row.endDate.Some? ==> row.endDate.value != "") && (row.startTime.Some? ==> row.startTime.value != "")
      && (row.endTime.Some? ==> row.endTime.value != "")
  {
    match event
    case None => SafeRow(Untitled, "", None, None, None, "", "none")
    case Some(e) =>
      SafeRow(Or(Some(e.activity), Untitled), e.date, OrNone(e.endDate), OrNone(e.startTime), OrNone(e.endTime),
              Or(e.notes, Or(e.location, "")), Or(e.recurrence, "none"))
  }

  // ---------------------------------------------------------------------
  // The date/time editor

  datatype EditorState = EditorState(
    editDate: string,
    editEndDate: string,
    editStart: string,
    editEnd: string,
    isAllDay: bool,
    editRecurrence: string)

  /** The editor's initial state: an empty date becomes today; absent
      values become empty inputs; all-day mode iff there is no start time. */
  function InitialEditor(date: string, endDate: Option<string>, startTime: Option<string>,
                         endTime: Option<string>, recurrence: Option<string>, today: string): (s: EditorState)
    ensures s.isAllDay <==> !Truthy(startTime)
    ensures s.editDate == if date != "" then date else today
    ensures s.editRecurrence == if Truthy(recurrence) then recurrence.value else "none"
    ensures s.editStart == Or(startTime, "") && s.editEnd == Or(endTime, "") && s.editEndDate == Or(endDate, "")
  {
    EditorState(if date != "" then date else today, Or(endDate, ""), Or(startTime, ""), Or(endTime, ""),
                !Truthy(startTime), Or(recurrence, "none"))
  }

  /** The arguments of `onSave`. */
  datatype SaveArgs = SaveArgs(
    date: string,
    endDate: Option<string>,
    startTime: Option<string>,
    endTime: Option<string>,
    recurrence: string)

  const DefaultStart: string := "09:00"

  /** `handleSave`: all-day mode clears both times; timed mode falls back to
      09:00 for an empty start and to null for an empty end; an empty end
      date is handed back as undefined. */
  function HandleSave(s: EditorState): (a: SaveArgs)
    ensures a.date == s.editDate && a.recurrence == s.editRecurrence
    ensures a.endDate.None? <==> s.editEndDate == ""
    ensures a.endDate.Some? ==> a.endDate.value == s.editEndDate
    ensures s.isAllDay ==> a.startTime.None? && a.endTime.None?
    ensures !s.isAllDay ==> a.startTime == Some(if s.editStart != "" then s.editStart else DefaultStart)
    ensures !s.isAllDay ==> (a.endTime.None? <==> s.editEnd == "") && (a.endTime.Some? ==> a.endTime.value == s.editEnd)
  {
    var endDate := if s.editEndDate != "" then Some(s.editEndDate) else None;
    if s.isAllDay then SaveArgs(s.editDate, endDate, None, None, s.editRecurrence)
    else SaveArgs(s.editDate, endDate,
                  Some(if s.editStart != "" then s.editStart else DefaultStart),
                  if s.editEnd != "" then Some(s.editEnd) else None,
                  s.editRecurrence)
  }

  /** Opening the editor on a row and saving it unchanged hands back the
      row's own values, except that an all-day row loses any end time it
      carried; a timed row always keeps a start. */
  lemma {:induction false} EditorRoundTrip(row: SafeRow, today: string)
    requires row.startTime.Some? ==> row.startTime.value != ""
    requires row.endTime.Some? ==> row.endTime.value != ""
    requires row.endDate.Some? ==> row.endDate.value != ""
    requires row.recurrence != ""
    ensures HandleSave(InitialEditor(row.date, row.endDate, row.startTime, row.endTime, Some(row.recurrence), today))
      == SaveArgs(if row.date != "" then row.date else today, row.endDate, row.startTime,
                  if row.startTime.Some? then row.endTime else None, row.recurrence)
  {
    var s := InitialEditor(row.date, row.endDate, row.startTime, row.endTime, Some(row.recurrence), today);
    assert s.editEndDate != "" <==> row.endDate.Some?;
    assert s.editEnd != "" <==> row.endTime.Some?;
  }

  // ---------------------------------------------------------------------
  // The table's state

  datatype Field = Activity | Date | EndDate | StartTime | EndTime | Notes | Recurrence

  /** One `onUpdate(index, field, value)` call. */
  datatype FieldUpdate = FieldUpdate(index: nat, field: Field, value: Option<string>)

  /** The five writes of `handleDateTimeSave`, in the order it issues them. */
  function DateTimeUpdates(index: nat, a: SaveArgs): (us: seq<FieldUpdate>)
    ensures |us| == 5 && forall i :: 0 <= i < 5 ==> us[i].index == index
    ensures [us[0].field, us[1].field, us[2].field, us[3].field, us[4].field]
      == [Date, EndDate, StartTime, EndTime, Recurrence]
    ensures us[0].value == Some(a.date) && us[1].value == OrNone(a.endDate)
    ensures us[2].value == a.startTime && us[3].value == a.endTime && us[4].value == Some(a.recurrence)
  {
    [FieldUpdate(index, Date, Some(a.date)),
     FieldUpdate(index, EndDate, OrNone(a.endDate)),
     FieldUpdate(index, StartTime, a.startTime),
     FieldUpdate(index, EndTime, a.endTime),
     FieldUpdate(index, Recurrence, Some(a.recurrence))]
  }

  /** Saving an all-day editor always writes null to both time fields, and
      an empty end date is stored as null. */
  lemma AllDaySaveClearsTimes(index: nat, s: EditorState)
    requires s.isAllDay
    ensures var us := DateTimeUpdates(index, HandleSave(s));
      us[2] == FieldUpdate(index, StartTime, None) && us[3] == FieldUpdate(index, EndTime, None)
      && (s.editEndDate == "" ==> us[1] == FieldUpdate(index, EndDate, None))
  {
  }

  class Table {
    /** The row whose editor is open, if any. */
    var editingDateTime: Option<nat>
    /** The cards already exported to Google Calendar. */
    var exportedIndices: set<nat>
    /** The `onUpdate` calls issued so far, oldest first. */
    var updates: seq<FieldUpdate>

    constructor ()
      ensures editingDateTime == None && exportedIndices == {} && updates == []
    {
      editingDateTime := None;
      exportedIndices := {};
      updates := [];
    }

    /** The date/time button: opens this row's editor, or closes it if it is open. */
    method ToggleEditor(index: nat)
      modifies this
      ensures editingDateTime == if old(editingDateTime) == Some(index) then None else Some(index)
      ensures exportedIndices == old(exportedIndices) && updates == old(updates)
    {
      editingDateTime := if editingDateTime == Some(index) then None else Some(index);
    }

    /** The editor's Cancel. */
    method CancelEditor()
      modifies this
      ensures editingDateTime == None
      ensures exportedIndices == old(exportedIndices) && updates == old(updates)
    {
      editingDateTime := None;
    }

    /** `handleDateTimeSave`: the five field writes on the same row, then
      the editor closes. */
    method HandleDateTimeSave(index: nat, a: SaveArgs)
      modifies this
      ensures updates == old(updates) + DateTimeUpdates(index, a)
      ensures editingDateTime == None && exportedIndices == old(exportedIndices)
    {
      updates := updates + [FieldUpdate(index, Date, Some(a.date))];
      updates := updates + [FieldUpdate(index, EndDate, OrNone(a.endDate))];
      updates := updates + [FieldUpdate(index, StartTime, a.startTime)];
      updates := updates + [FieldUpdate(index, EndTime, a.endTime)];
      updates := updates + [FieldUpdate(index, Recurrence, Some(a.recurrence))];
      editingDateTime := None;
    }

    /** The export link's click: the card is marked as exported, and every
      card exported before stays so. */
    method MarkExported(index: nat)
      modifies this
      ensures exportedIndices == old(exportedIndices) + {index}
      ensures editingDateTime == old(editingDateTime) && updates == old(updates)
    {
      exportedIndices := exportedIndices + {index};
    }
  }
}
