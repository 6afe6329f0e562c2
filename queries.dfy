/** `Database.jobcount_check` of main.py: today's applications and the running total. */
module Queries {
  import opened Table
  import opened Storage

  /** What `jobcount_check` reports: the rows dated today (listed only when their
      quantities do not sum to 0), today's count and the grand total. */
  datatype Summary = Summary(todayRows: seq<Record>, todayCount: int, total: int, listsRows: bool)

  function JobCount(t: seq<Record>, today: string): (s: Summary)
    ensures s.todayRows == Filter(t, DateIs(today))
    ensures forall r :: r in s.todayRows <==> r in t && r.date == today
    ensures s.todayCount == Total(s.todayRows) && s.total == Total(t)
    ensures s.listsRows <==> s.todayCount != 0
  {
    FilterComplete(t, DateIs(today));
    var rows := Filter(t, DateIs(today));
    var count := Total(rows);
    Summary(rows, count, Total(t), count != 0)
  }

  /** With non-negative quantities, today's count is between 0 and the grand total. */
  lemma JobCountBounds(t: seq<Record>, today: string)
    requires NonNegative(t)
    ensures 0 <= JobCount(t, today).todayCount <= JobCount(t, today).total
  {
    TotalFilterBounded(t, DateIs(today));
  }

  lemma {:induction false} TodayAddToCompany(t: seq<Record>, name: string, quantity: int, today: string)
    ensures Total(Filter(AddToCompany(t, name, quantity), DateIs(today))) ==
      Total(Filter(t, DateIs(today))) + quantity * |Filter(t, CompanyOn(name, today))|
  {
    if t != [] {
      var n := |Filter(t[1..], CompanyOn(name, today))|;
      TodayAddToCompany(t[1..], name, quantity, today);
      var bumped := AddToCompany(t, name, quantity);
      assert bumped[1..] == AddToCompany(t[1..], name, quantity);
      assert bumped[0] == Bump(t[0], name, quantity);
      var rest := Filter(t[1..], DateIs(today));
      var restBumped := Filter(bumped[1..], DateIs(today));
      if t[0].date == today {
        assert Filter(t, DateIs(today)) == [t[0]] + rest;
        assert Filter(bumped, DateIs(today)) == [bumped[0]] + restBumped;
        assert ([t[0]] + rest)[1..] == rest;
        assert ([bumped[0]] + restBumped)[1..] == restBumped;
        if t[0].company == name {
          assert |Filter(t, CompanyOn(name, today))| == n + 1;
          MulSucc(quantity, n);
        } else {
          assert |Filter(t, CompanyOn(name, today))| == n;
        }
      } else {
        assert Filter(t, DateIs(today)) == rest;
        assert Filter(bumped, DateIs(today)) == restBumped;
        assert |Filter(t, CompanyOn(name, today))| == n;
      }
    }
  }

  /** How `append_entry` moves the two counters: a new row adds `quantity` to both;
      the in-place branch adds `quantity` to the total once per row of the company
      and to today's count once per row of the company dated today. */
  lemma JobCountAfterAppend(t: seq<Record>, name: string, quantity: int, today: string)
    ensures JobCount(Appended(t, name, quantity, today), today).todayCount ==
      JobCount(t, today).todayCount +
      (if OpensNewRow(t, name, today) then quantity else quantity * |Filter(t, CompanyOn(name, today))|)
    ensures JobCount(Appended(t, name, quantity, today), today).total ==
      JobCount(t, today).total +
      (if OpensNewRow(t, name, today) then quantity else quantity * |Search(t, name)|)
  {
    AppendTotal(t, name, quantity, today);
    var row := NewRow(name, quantity, today);
    if OpensNewRow(t, name, today) {
      FilterConcat(t, [row], DateIs(today));
      assert Filter([row], DateIs(today)) == [row];
      TotalConcat(Filter(t, DateIs(today)), [row]);
    } else {
      TodayAddToCompany(t, name, quantity, today);
    }
  }

  /** Two same-day entries for a new company leave one row holding both, and
      `jobcount_check` reports it as today's only row. */
  lemma TwoEntriesSameDay(today: string)
    ensures Appended(Appended([], "Acme", 2, today), "Acme", 3, today) == [NewRow("Acme", 5, today)]
    ensures JobCount([NewRow("Acme", 5, today)], today) == Summary([NewRow("Acme", 5, today)], 5, 5, true)
  {
    var first := Appended([], "Acme", 2, today);
    assert first == [NewRow("Acme", 2, today)];
    assert Search(first, "Acme") == first;
    assert !OpensNewRow(first, "Acme", today);
  }
}
