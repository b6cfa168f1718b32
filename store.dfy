/** The attendance store: the whole record list held under one storage key,
    read whole and written back whole by every operation. The check-in,
    delete and clear-all handlers change it; the dashboard and the export
    only read it. */
module Store {
  import opened Text
  import opened Records
  import opened Dashboard
  import opened Csv

  /** What the check-in form shows after a submission: nothing (a required
      field was blank), "Already checked in today." or "Check-in successful!". */
  datatype Outcome = Ignored | AlreadyCheckedIn | CheckedIn

  class AttendanceStore {
    /** The list kept under the storage key, in insertion order. */
    var records: seq<Record>

    /** Opens the store: `saved` is the stored list, or None when the key
        holds no value or the empty string (`getItem(...) || '[]'`), in
        which case the list is empty. */
    constructor (saved: Option<seq<Record>>)
      ensures records == (if saved.None? then [] else saved.value)
    {
      records := if saved.None? then [] else saved.value;
    }

    /** `handleCheckIn`: trims the three inputs; ignores the submission when
        the name or student id is blank; refuses it when the same student
        already has a record dated today (`nowIso`'s first ten characters);
        otherwise appends one record stamped `nowIso` and writes the list back. */
    method CheckIn(nameInput: string, idInput: string, noteInput: string, nowIso: string)
      returns (outcome: Outcome)
      modifies this
      ensures Trim(nameInput) == [] || Trim(idInput) == [] ==>
        outcome == Ignored && records == old(records)
      ensures Trim(nameInput) != [] && Trim(idInput) != []
              && HasCheckedIn(old(records), Trim(idInput), Day(nowIso)) ==>
        outcome == AlreadyCheckedIn && records == old(records)
      ensures Trim(nameInput) != [] && Trim(idInput) != []
              && !HasCheckedIn(old(records), Trim(idInput), Day(nowIso)) ==>
        outcome == CheckedIn
        && records == old(records) + [Record(Trim(nameInput), Trim(idInput), Some(Trim(noteInput)), nowIso)]
      ensures NoSameDayDuplicates(old(records)) ==> NoSameDayDuplicates(records)
    {
      var name := Trim(nameInput);
      var studentId := Trim(idInput);
      var note := Trim(noteInput);
      if name == [] || studentId == [] {
        return Ignored;
      }
      var today := Day(nowIso);
      var alreadyChecked := AlreadyChecked(records, studentId, today);
      AlreadyCheckedIff(records, studentId, today);
      if alreadyChecked {
        return AlreadyCheckedIn;
      }
      var r := Record(name, studentId, Some(note), nowIso);
      if NoSameDayDuplicates(records) {
        AppendKeepsNoDuplicates(records, r);
      }
      records := records + [r];
      outcome := CheckedIn;
    }

    /** `deleteAdminRecord(idx)`: when `idx` is a position of the list and
        the user confirms, removes exactly that record and writes the list
        back; otherwise nothing changes. */
    method Delete(idx: int, confirmed: bool)
      modifies this
      ensures 0 <= idx < |old(records)| && confirmed ==>
        records == RemoveAt(old(records), idx)
      ensures !(0 <= idx < |old(records)| && confirmed) ==> records == old(records)
      ensures NoSameDayDuplicates(old(records)) ==> NoSameDayDuplicates(records)
    {
      if 0 <= idx < |records| {
        if confirmed {
          if NoSameDayDuplicates(records) {
            RemoveKeepsNoDuplicates(records, idx);
          }
          records := RemoveAt(records, idx);
        }
      }
    }

    /** The admin panel's clear-all button: after confirmation the stored
        list is empty; otherwise nothing changes. */
    method ClearAll(confirmed: bool)
      modifies this
      ensures records == if confirmed then [] else old(records)
    {
      if confirmed {
        records := [];
      }
    }

    /** `filterDashboard`: the dashboard view of the stored list for the date
        input `dateVal` and the name input `nameInput`. */
    method View(dateVal: string, nameInput: string) returns (view: seq<Record>)
      ensures view == Keep(records, DashboardQuery(dateVal, nameInput))
      ensures IsSubsequence(view, records)
    {
      view := FilterDashboard(records, dateVal, nameInput);
      FilterDashboardIsQuery(records, dateVal, nameInput);
      KeepIsSubsequence(records, DashboardQuery(dateVal, nameInput));
    }

    /** `exportCSV`: the file text and name. The file covers the whole
        stored list, whatever the dashboard filter shows. */
    method ExportCsv(formatDate: string -> string, nowIso: string)
      returns (csv: string, fileName: string)
      ensures csv == JoinLines(Lines(records, formatDate))
      ensures fileName == "attendance-" + Day(nowIso) + ".csv"
    {
      csv := Export(records, formatDate);
      fileName := FileName(nowIso);
    }
  }
}
