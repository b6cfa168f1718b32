/** The dashboard's filtered view of the record list: an optional exact
    calendar-day match ANDed with an optional case-insensitive name
    substring match, keeping the stored order. */
module Dashboard {
  import opened Text
  import opened Records

  /** A test applied to each record by `Array.prototype.filter`. */
  datatype Criterion =
    | OnDay(day: string)                      // r.date.slice(0, 10) === day
    | NameHas(query: string)                  // r.name.toLowerCase().includes(query)
    | Query(day: string, query: string)       // both, an empty part meaning "no filter"

  predicate Holds(c: Criterion, r: Record)
  {
    match c
    case OnDay(day) => Day(r.date) == day
    case NameHas(query) => Contains(Lower(r.name), query)
    case Query(day, query) =>
      (day == [] || Day(r.date) == day) && (query == [] || Contains(Lower(r.name), query))
  }

  /** `rs.filter(r => Holds(c, r))`: every kept record meets the criterion. */
  function Keep(rs: seq<Record>, c: Criterion): (kept: seq<Record>)
    ensures |kept| <= |rs|
    ensures forall i :: 0 <= i < |kept| ==> Holds(c, kept[i])
  {
    if rs == [] then []
    else if Holds(c, rs[0]) then [rs[0]] + Keep(rs[1..], c)
    else Keep(rs[1..], c)
  }

  /** `a` is `b` with some elements left out, the rest in their order. */
  ghost predicate IsSubsequence<T>(a: seq<T>, b: seq<T>)
    decreases |b|
  {
    if a == [] then true
    else if b == [] then false
    else (a[0] == b[0] && IsSubsequence(a[1..], b[1..])) || IsSubsequence(a, b[1..])
  }

  /** `filterDashboard`: the date filter applies when `dateVal` is non-empty,
      then the name filter applies when the trimmed, lower-cased name input
      is non-empty. */
  function FilterDashboard(rs: seq<Record>, dateVal: string, nameInput: string): seq<Record>
  {
    var query := Lower(Trim(nameInput));
    var byDay := if dateVal != [] then Keep(rs, OnDay(dateVal)) else rs;
    if query != [] then Keep(byDay, NameHas(query)) else byDay
  }

  /** The single criterion the dashboard applies for the given inputs. */
  function DashboardQuery(dateVal: string, nameInput: string): Criterion
  {
    Query(dateVal, Lower(Trim(nameInput)))
  }

  /** Filtering keeps the order of what it keeps. */
  lemma {:induction false} KeepIsSubsequence(rs: seq<Record>, c: Criterion)
    ensures IsSubsequence(Keep(rs, c), rs)
  {
    if rs != [] {
      KeepIsSubsequence(rs[1..], c);
      var k := Keep(rs[1..], c);
      if Holds(c, rs[0]) {
        assert Keep(rs, c) == [rs[0]] + k;
        assert ([rs[0]] + k)[1..] == k;
      } else if k != [] {
        assert Keep(rs, c) == k;
      }
    }
  }

  /** A record is kept exactly when it is in the input and meets the criterion. */
  lemma {:induction false} KeepMembers(rs: seq<Record>, c: Criterion)
    ensures forall r :: r in Keep(rs, c) <==> r in rs && Holds(c, r)
  {
    if rs != [] {
      KeepMembers(rs[1..], c);
      assert rs == [rs[0]] + rs[1..];
    }
  }

  /** Each record is kept as many times as it occurs in the input when it
      meets the criterion, and not at all otherwise. */
  lemma {:induction false} KeepCounts(rs: seq<Record>, c: Criterion)
    ensures forall r :: multiset(Keep(rs, c))[r] == if Holds(c, r) then multiset(rs)[r] else 0
  {
    if rs != [] {
      KeepCounts(rs[1..], c);
      assert rs == [rs[0]] + rs[1..];
    }
  }

  /** When every record meets the criterion, filtering returns the input. */
  lemma {:induction false} KeepAll(rs: seq<Record>, c: Criterion)
    requires forall r :: r in rs ==> Holds(c, r)
    ensures Keep(rs, c) == rs
  {
    if rs != [] {
      KeepAll(rs[1..], c);
      assert rs == [rs[0]] + rs[1..];
    }
  }

  /** Two filters in a row are one filter by the conjunction of their criteria. */
  lemma {:induction false} KeepKeep(rs: seq<Record>, c1: Criterion, c2: Criterion, both: Criterion)
    requires forall r :: Holds(both, r) <==> Holds(c1, r) && Holds(c2, r)
    ensures Keep(Keep(rs, c1), c2) == Keep(rs, both)
  {
    if rs != [] {
      KeepKeep(rs[1..], c1, c2, both);
      if Holds(c1, rs[0]) {
        assert ([rs[0]] + Keep(rs[1..], c1))[1..] == Keep(rs[1..], c1);
      }
    }
  }

  /** The two chained filters of the dashboard are one pass with the
      combined criterion. */
  lemma FilterDashboardIsQuery(rs: seq<Record>, dateVal: string, nameInput: string)
    ensures FilterDashboard(rs, dateVal, nameInput) == Keep(rs, DashboardQuery(dateVal, nameInput))
  {
    var query := Lower(Trim(nameInput));
    var c := DashboardQuery(dateVal, nameInput);
    if dateVal != [] && query != [] {
      KeepKeep(rs, OnDay(dateVal), NameHas(query), c);
    } else if dateVal != [] {
      KeepKeep(rs, OnDay(dateVal), OnDay(dateVal), c);
      KeepMembers(rs, OnDay(dateVal));
      KeepAll(Keep(rs, OnDay(dateVal)), OnDay(dateVal));
    } else if query != [] {
      KeepKeep(rs, NameHas(query), NameHas(query), c);
      KeepMembers(rs, NameHas(query));
      KeepAll(Keep(rs, NameHas(query)), NameHas(query));
    } else {
      KeepAll(rs, c);
    }
  }

  /** The view is an order-preserving subsequence of the stored records,
      holding every stored record that matches both filters, as many times
      as it is stored, and no other record. */
  lemma FilterDashboardSelects(rs: seq<Record>, dateVal: string, nameInput: string)
    ensures IsSubsequence(FilterDashboard(rs, dateVal, nameInput), rs)
    ensures forall r ::
              multiset(FilterDashboard(rs, dateVal, nameInput))[r] ==
                if (dateVal == [] || Day(r.date) == dateVal)
                   && (Trim(nameInput) == [] || Contains(Lower(r.name), Lower(Trim(nameInput))))
                then multiset(rs)[r] else 0
    ensures forall r :: r in FilterDashboard(rs, dateVal, nameInput) <==>
      r in rs
      && (dateVal == [] || Day(r.date) == dateVal)
      && (Trim(nameInput) == [] || Contains(Lower(r.name), Lower(Trim(nameInput))))
  {
    FilterDashboardIsQuery(rs, dateVal, nameInput);
    KeepIsSubsequence(rs, DashboardQuery(dateVal, nameInput));
    KeepCounts(rs, DashboardQuery(dateVal, nameInput));
    KeepMembers(rs, DashboardQuery(dateVal, nameInput));
  }

  /** With no date and a blank name input the view is the whole list. */
  lemma NoFilterIsIdentity(rs: seq<Record>, nameInput: string)
    requires forall k :: 0 <= k < |nameInput| ==> IsSpace(nameInput[k])
    ensures FilterDashboard(rs, [], nameInput) == rs
  {
  }

  /** Filtering the view again with the same inputs changes nothing. */
  lemma FilterDashboardIdempotent(rs: seq<Record>, dateVal: string, nameInput: string)
    ensures FilterDashboard(FilterDashboard(rs, dateVal, nameInput), dateVal, nameInput)
         == FilterDashboard(rs, dateVal, nameInput)
  {
    var c := DashboardQuery(dateVal, nameInput);
    FilterDashboardIsQuery(rs, dateVal, nameInput);
    FilterDashboardIsQuery(Keep(rs, c), dateVal, nameInput);
    KeepKeep(rs, c, c, c);
  }
}
