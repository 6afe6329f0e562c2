/** The same-day write rule that the comment beside `append_entry` describes
    ("only aggregate applications done today"), next to two inputs on which the
    rule as written in main.py departs from it. */
module SameDay {
  import opened StringOrder
  import opened Table
  import opened Storage

  /** For each company, at most one row per Date. */
  predicate OneRowPerDay(t: seq<Record>)
  {
    forall i, j :: 0 <= i < j < |t| && t[i].company == t[j].company ==> t[i].date != t[j].date
  }

  /** Bump only the company's row dated today. */
  function AddToToday(t: seq<Record>, name: string, quantity: int, today: string): seq<Record>
  {
    if t == [] then []
    else
      var head := if Selects(CompanyOn(name, today), t[0]) then t[0].(quantity := t[0].quantity + quantity) else t[0];
      [head] + AddToToday(t[1..], name, quantity, today)
  }

  lemma {:induction false} AddToTodayAt(t: seq<Record>, name: string, quantity: int, today: string)
    ensures |AddToToday(t, name, quantity, today)| == |t|
    ensures forall i :: 0 <= i < |t| ==>
      var old_row := t[i];
      AddToToday(t, name, quantity, today)[i] ==
        if Selects(CompanyOn(name, today), old_row) then old_row.(quantity := old_row.quantity + quantity) else old_row
  {
    if t != [] {
      AddToTodayAt(t[1..], name, quantity, today);
    }
  }

  /** The corrected `append_entry`: bump the company's row dated today when there is
      one, otherwise append a fresh `Applied` row. Rows of earlier days never change.
      Unlike `OpensNewRow`, the rule does not test whether the company's quantities sum
      to 0: a row of 0 dated today is bumped rather than joined by another. */
  function AppendedToday(t: seq<Record>, name: string, quantity: int, today: string): (r: seq<Record>)
    ensures Filter(t, CompanyOn(name, today)) == [] ==> r == t + [NewRow(name, quantity, today)]
    ensures Filter(t, CompanyOn(name, today)) != [] ==>
      && |r| == |t|
      && forall i :: 0 <= i < |t| ==>
        && r[i].company == t[i].company
        && r[i].status == t[i].status
        && r[i].date == t[i].date
        && r[i].quantity == t[i].quantity + (if Selects(CompanyOn(name, today), t[i]) then quantity else 0)
  {
    if Filter(t, CompanyOn(name, today)) == [] then t + [NewRow(name, quantity, today)]
    else
      AddToTodayAt(t, name, quantity, today);
      AddToToday(t, name, quantity, today)
  }

  lemma {:induction false} TotalAddToToday(t: seq<Record>, name: string, quantity: int, today: string)
    ensures Total(AddToToday(t, name, quantity, today)) ==
      Total(t) + quantity * |Filter(t, CompanyOn(name, today))|
  {
    if t != [] {
      var n := |Filter(t[1..], CompanyOn(name, today))|;
      TotalAddToToday(t[1..], name, quantity, today);
      assert AddToToday(t, name, quantity, today)[1..] == AddToToday(t[1..], name, quantity, today);
      if Selects(CompanyOn(name, today), t[0]) {
        assert |Filter(t, CompanyOn(name, today))| == n + 1;
        MulSucc(quantity, n);
      } else {
        assert |Filter(t, CompanyOn(name, today))| == n;
      }
    }
  }

  /** Under the one-row-per-day invariant a company has at most one row dated today. */
  lemma {:induction false} AtMostOneRowToday(t: seq<Record>, name: string, today: string)
    requires OneRowPerDay(t)
    ensures |Filter(t, CompanyOn(name, today))| <= 1
  {
    if t != [] {
      assert OneRowPerDay(t[1..]) by {
        forall i, j | 0 <= i < j < |t[1..]| && t[1..][i].company == t[1..][j].company
          ensures t[1..][i].date != t[1..][j].date
        {
          assert t[1..][i] == t[i + 1] && t[1..][j] == t[j + 1];
        }
      }
      AtMostOneRowToday(t[1..], name, today);
      if Selects(CompanyOn(name, today), t[0]) {
        FilterEmpty(t[1..], CompanyOn(name, today));
        forall i | 0 <= i < |t[1..]| ensures !Selects(CompanyOn(name, today), t[1..][i]) {
          assert t[1..][i] == t[i + 1];
        }
      }
    }
  }

  /** The corrected rule keeps one row per company per day. */
  lemma AppendedTodayKeepsOneRowPerDay(t: seq<Record>, name: string, quantity: int, today: string)
    requires OneRowPerDay(t)
    ensures OneRowPerDay(AppendedToday(t, name, quantity, today))
  {
    var r := AppendedToday(t, name, quantity, today);
    if Filter(t, CompanyOn(name, today)) == [] {
      FilterEmpty(t, CompanyOn(name, today));
      forall i, j | 0 <= i < j < |r| && r[i].company == r[j].company ensures r[i].date != r[j].date {
        if j == |t| {
          assert !Selects(CompanyOn(name, today), t[i]);
        }
      }
    } else {
      forall i, j | 0 <= i < j < |r| && r[i].company == r[j].company ensures r[i].date != r[j].date {
        assert t[i].company == t[j].company;
      }
    }
  }

  /** Under that invariant, each entry raises the grand total by exactly its quantity. */
  lemma AppendedTodayTotal(t: seq<Record>, name: string, quantity: int, today: string)
    requires OneRowPerDay(t)
    ensures Total(AppendedToday(t, name, quantity, today)) == Total(t) + quantity
  {
    if Filter(t, CompanyOn(name, today)) == [] {
      TotalConcat(t, [NewRow(name, quantity, today)]);
    } else {
      AtMostOneRowToday(t, name, today);
      TotalAddToToday(t, name, quantity, today);
    }
  }

  /** A company with a row from 1 October and a row from today, 15 October 2026. */
  const TwoDays: seq<Record> := [Record("Acme", Applied, 2, "01/10/2026"), Record("Acme", Applied, 1, "15/10/2026")]

  /** As written, the in-place branch also bumps the company's row of an earlier day:
      one entry of 3 raises the total by 6. */
  lemma InPlaceBranchBumpsEarlierDays()
    ensures Appended(TwoDays, "Acme", 3, "15/10/2026") ==
      [Record("Acme", Applied, 5, "01/10/2026"), Record("Acme", Applied, 4, "15/10/2026")]
    ensures Total(Appended(TwoDays, "Acme", 3, "15/10/2026")) == Total(TwoDays) + 6
  {
    var t := TwoDays;
    TwoDaysBumpsInPlace();
    assert AddToCompany(t, "Acme", 3) == [Bump(t[0], "Acme", 3)] + AddToCompany(t[1..], "Acme", 3);
    assert AddToCompany(t[1..], "Acme", 3) == [Bump(t[1], "Acme", 3)] + AddToCompany([], "Acme", 3);
    AppendTotal(t, "Acme", 3, "15/10/2026");
  }

  /** Today's date is the greatest of the company's dates and its quantities sum to 3,
      so `append_entry` takes the in-place branch. */
  lemma TwoDaysBumpsInPlace()
    ensures !OpensNewRow(TwoDays, "Acme", "15/10/2026")
  {
    var t := TwoDays;
    assert Search(t, "Acme") == t;
    assert t[1..] == [t[1]];
    assert Total(t[1..]) == 1;
    assert Le("01/10/2026", "15/10/2026");
  }

  /** The corrected rule bumps only today's row of the same table. */
  lemma CorrectedRuleBumpsTodayOnly()
    ensures OneRowPerDay(TwoDays)
    ensures AppendedToday(TwoDays, "Acme", 3, "15/10/2026") ==
      [Record("Acme", Applied, 2, "01/10/2026"), Record("Acme", Applied, 4, "15/10/2026")]
    ensures Total(AppendedToday(TwoDays, "Acme", 3, "15/10/2026")) == Total(TwoDays) + 3
  {
    assert Filter(TwoDays, CompanyOn("Acme", "15/10/2026")) == [TwoDays[1]];
    AppendedTodayTotal(TwoDays, "Acme", 3, "15/10/2026");
  }

  /** A company last seen on 31 December 2025. */
  const YearEnd: seq<Record> := [Record("Acme", Applied, 1, "31/12/2025")]

  /** "31/12/2025" is the greater string, so a first entry on 1 January 2026 opens a row. */
  lemma YearEndFirstEntryOpensRow()
    ensures OpensNewRow(YearEnd, "Acme", "01/01/2026")
  {
    assert Search(YearEnd, "Acme") == YearEnd;
  }

  /** It still is after that row exists, so the second entry of the day opens another. */
  lemma YearEndSecondEntryOpensRow()
    ensures OpensNewRow(YearEnd + [NewRow("Acme", 1, "01/01/2026")], "Acme", "01/01/2026")
  {
    var once := YearEnd + [NewRow("Acme", 1, "01/01/2026")];
    assert Search(once, "Acme") == once;
    assert once[1..] == [once[1]];
    assert Le("01/01/2026", "31/12/2025");
    assert MaxDate(once) == "31/12/2025";
  }

  /** As written, two entries on 1 January 2026 for that company leave two rows dated
      that day. */
  lemma LexicographicMaxSplitsDay()
    ensures OneRowPerDay(YearEnd)
    ensures AppendAll(YearEnd, "Acme", [1, 1], "01/01/2026") ==
      YearEnd + [NewRow("Acme", 1, "01/01/2026"), NewRow("Acme", 1, "01/01/2026")]
    ensures !OneRowPerDay(AppendAll(YearEnd, "Acme", [1, 1], "01/01/2026"))
  {
    var today := "01/01/2026";
    var row := NewRow("Acme", 1, today);
    assert [1, 1][..1] == [1];
    assert [1][..0] == [];
    assert AppendAll(YearEnd, "Acme", [1], today) == Appended(YearEnd, "Acme", 1, today);
    YearEndFirstEntryOpensRow();
    YearEndSecondEntryOpensRow();
    var twice := YearEnd + [row] + [row];
    assert twice == YearEnd + [row, row];
    assert twice[1].company == twice[2].company && twice[1].date == twice[2].date;
  }

  /** The string maximum also misleads within a year: beside a row dated 20 September,
      a row dated 15 October is not the company's greatest Date, so an entry on
      15 October opens a second row for that day. */
  lemma MidYearEntryOpensRow()
    ensures OpensNewRow([Record("Acme", Applied, 1, "20/09/2026"), Record("Acme", Applied, 1, "15/10/2026")], "Acme", "15/10/2026")
  {
    var t := [Record("Acme", Applied, 1, "20/09/2026"), Record("Acme", Applied, 1, "15/10/2026")];
    assert Search(t, "Acme") == t;
    assert t[1..] == [t[1]];
    assert Le("15/10/2026", "20/09/2026");
    assert MaxDate(t) == "20/09/2026";
  }

  /** As written, entries of 0 never reach the in-place branch (the company's sum
      stays 0), so two of them on one day leave two rows dated that day. */
  lemma ZeroEntriesOpenRows(today: string)
    ensures Appended(Appended([], "Acme", 0, today), "Acme", 0, today) ==
      [NewRow("Acme", 0, today), NewRow("Acme", 0, today)]
    ensures AppendedToday(AppendedToday([], "Acme", 0, today), "Acme", 0, today) == [NewRow("Acme", 0, today)]
  {
    var once := [NewRow("Acme", 0, today)];
    assert Appended([], "Acme", 0, today) == once;
    assert Search(once, "Acme") == once;
    assert Total(once) == 0;
    assert AppendedToday([], "Acme", 0, today) == once;
    assert Filter(once, CompanyOn("Acme", today)) == once;
    AddToTodayAt(once, "Acme", 0, today);
  }

  /** The corrected rule opens one row on the first entry and bumps it on the second. */
  lemma CorrectedRuleKeepsOneRow()
    ensures AppendedToday(AppendedToday(YearEnd, "Acme", 1, "01/01/2026"), "Acme", 1, "01/01/2026") ==
      YearEnd + [NewRow("Acme", 2, "01/01/2026")]
  {
    var today := "01/01/2026";
    var once := YearEnd + [NewRow("Acme", 1, today)];
    assert Filter(YearEnd, CompanyOn("Acme", today)) == [];
    assert AppendedToday(YearEnd, "Acme", 1, today) == once;
    assert Filter(once, CompanyOn("Acme", today)) == [once[1]] by {
      assert once[1..] == [once[1]];
    }
  }
}
