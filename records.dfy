/** Attendance records and the facts about a record list that the
    check-in and admin operations rely on. */
module Records {
  import opened Text

  datatype Option<T> = None | Some(value: T)

  /** One check-in, as stored: `{name, studentId, note, date}`. `date` is
      the ISO-8601 timestamp of the check-in. `note` is optional because
      the export reads it as `r.note?.…`; check-in always stores one. */
  datatype Record = Record(name: string, studentId: string, note: Option<string>, date: string)

  /** The calendar-day part of an ISO timestamp: `date.slice(0, 10)`. */
  function Day(iso: string): (day: string)
    ensures |day| <= 10 && day <= iso
    ensures |iso| >= 10 ==> |day| == 10
  {
    Prefix(iso, 10)
  }

  /** `r` is a check-in of student `sid` on day `today`. */
  predicate CheckedInOn(r: Record, sid: string, today: string)
  {
    r.studentId == sid && Day(r.date) == today
  }

  /** Some record of `rs` is a check-in of `sid` on `today`. */
  ghost predicate HasCheckedIn(rs: seq<Record>, sid: string, today: string)
  {
    exists i :: 0 <= i < |rs| && CheckedInOn(rs[i], sid, today)
  }

  /** The duplicate test `records.some(r => r.studentId === sid &&
      r.date.slice(0, 10) === today)`, scanning from the front. */
  function AlreadyChecked(rs: seq<Record>, sid: string, today: string): bool
  {
    if rs == [] then false
    else CheckedInOn(rs[0], sid, today) || AlreadyChecked(rs[1..], sid, today)
  }

  /** The scan answers yes exactly when some record is a same-day check-in
      of the same student. */
  lemma {:induction false} AlreadyCheckedIff(rs: seq<Record>, sid: string, today: string)
    ensures AlreadyChecked(rs, sid, today) <==> HasCheckedIn(rs, sid, today)
  {
    if rs != [] {
      AlreadyCheckedIff(rs[1..], sid, today);
      if HasCheckedIn(rs[1..], sid, today) {
        var i :| 0 <= i < |rs| - 1 && CheckedInOn(rs[1..][i], sid, today);
        assert CheckedInOn(rs[i + 1], sid, today);
      }
      if HasCheckedIn(rs, sid, today) && !CheckedInOn(rs[0], sid, today) {
        var i :| 0 <= i < |rs| && CheckedInOn(rs[i], sid, today);
        assert CheckedInOn(rs[1..][i - 1], sid, today);
      }
    }
  }

  /** The invariant the check-in guard keeps: no two records belong to the
      same student on the same calendar day. */
  ghost predicate NoSameDayDuplicates(rs: seq<Record>)
  {
    forall i, j :: 0 <= i < j < |rs| ==> !CheckedInOn(rs[j], rs[i].studentId, Day(rs[i].date))
  }

  /** Appending a record that passed the duplicate scan for its own day keeps
      the invariant. */
  lemma AppendKeepsNoDuplicates(rs: seq<Record>, r: Record)
    requires NoSameDayDuplicates(rs)
    requires !AlreadyChecked(rs, r.studentId, Day(r.date))
    ensures NoSameDayDuplicates(rs + [r])
  {
    AlreadyCheckedIff(rs, r.studentId, Day(r.date));
    var s := rs + [r];
    forall i, j | 0 <= i < j < |s|
      ensures !CheckedInOn(s[j], s[i].studentId, Day(s[i].date))
    {
      if j == |rs| {
        assert s[i] == rs[i] && s[j] == r;
        assert !CheckedInOn(rs[i], r.studentId, Day(r.date));
      }
    }
  }

  /** `records.splice(i, 1)` on a valid index: one element fewer, the ones
      before `i` stay put and the ones after move down by one. */
  function RemoveAt<T>(s: seq<T>, i: nat): (r: seq<T>)
    requires i < |s|
    ensures |r| == |s| - 1
    ensures forall k :: 0 <= k < i ==> r[k] == s[k]
    ensures forall k :: i <= k < |r| ==> r[k] == s[k + 1]
  {
    s[..i] + s[i + 1..]
  }

  /** Removing a record keeps the invariant. */
  lemma RemoveKeepsNoDuplicates(rs: seq<Record>, i: nat)
    requires i < |rs|
    requires NoSameDayDuplicates(rs)
    ensures NoSameDayDuplicates(RemoveAt(rs, i))
  {
  }
}
