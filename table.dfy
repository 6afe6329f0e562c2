/** The job-application table of main.py: the four columns of `applications.csv`
    and the row filters, column sums and column maxima the program computes over it. */
module Table {
  import opened StringOrder

  /** One row of the table: `Company,Status,Quantity,Date`. */
  datatype Record = Record(company: string, status: string, quantity: int, date: string)

  /** The status every new row starts with. */
  const Applied: string := "Applied"

  /** A boolean row mask, as built by `dataframe[column] == value`. */
  datatype Selector =
    | CompanyIs(name: string)
    | DateIs(day: string)
    | GroupIs(company: string, status: string)
    | CompanyOn(owner: string, on: string)

  predicate Selects(sel: Selector, r: Record)
  {
    match sel
    case CompanyIs(name) => r.company == name
    case DateIs(day) => r.date == day
    case GroupIs(company, status) => r.company == company && r.status == status
    case CompanyOn(owner, on) => r.company == owner && r.date == on
  }

  /** `dataframe[mask]`: the selected rows, in stored order. */
  function Filter(t: seq<Record>, sel: Selector): (r: seq<Record>)
    ensures |r| <= |t|
    ensures forall i :: 0 <= i < |r| ==> Selects(sel, r[i]) && r[i] in t
  {
    if t == [] then []
    else (if Selects(sel, t[0]) then [t[0]] else []) + Filter(t[1..], sel)
  }

  /** No selected row is dropped. */
  lemma {:induction false} FilterComplete(t: seq<Record>, sel: Selector)
    ensures forall r :: r in t && Selects(sel, r) ==> r in Filter(t, sel)
  {
    if t != [] {
      FilterComplete(t[1..], sel);
      assert forall r :: r in t ==> r == t[0] || r in t[1..];
    }
  }

  /** Filtering commutes with concatenation, so the selected rows keep their stored order. */
  lemma {:induction false} FilterConcat(a: seq<Record>, b: seq<Record>, sel: Selector)
    ensures Filter(a + b, sel) == Filter(a, sel) + Filter(b, sel)
  {
    if a == [] {
      assert a + b == b;
    } else {
      assert (a + b)[1..] == a[1..] + b;
      FilterConcat(a[1..], b, sel);
    }
  }

  /** The filter is empty exactly when no row is selected. */
  lemma {:induction false} FilterEmpty(t: seq<Record>, sel: Selector)
    ensures Filter(t, sel) == [] <==> forall i :: 0 <= i < |t| ==> !Selects(sel, t[i])
  {
    if t != [] {
      FilterEmpty(t[1..], sel);
      assert forall i :: 1 <= i < |t| ==> t[i] == t[1..][i - 1];
    }
  }

  /** `search(name)` (and the `found_data` of `append_entry`): the rows of one company. */
  function Search(t: seq<Record>, name: string): (found: seq<Record>)
    ensures forall r :: r in found <==> r in t && r.company == name
  {
    FilterComplete(t, CompanyIs(name));
    Filter(t, CompanyIs(name))
  }

  /** `dataframe['Quantity'].sum()`; 0 for no rows, as pandas sums an empty column. */
  function Total(t: seq<Record>): int
  {
    if t == [] then 0 else t[0].quantity + Total(t[1..])
  }

  lemma {:induction false} TotalConcat(a: seq<Record>, b: seq<Record>)
    ensures Total(a + b) == Total(a) + Total(b)
  {
    if a == [] {
      assert a + b == b;
    } else {
      assert (a + b)[1..] == a[1..] + b;
      TotalConcat(a[1..], b);
    }
  }

  lemma MulSucc(q: int, n: int)
    ensures q * (n + 1) == q * n + q
  {
  }

  predicate NonNegative(t: seq<Record>)
  {
    forall i :: 0 <= i < |t| ==> t[i].quantity >= 0
  }

  /** With non-negative quantities, a filtered sum lies between 0 and the whole sum. */
  lemma {:induction false} TotalFilterBounded(t: seq<Record>, sel: Selector)
    requires NonNegative(t)
    ensures 0 <= Total(Filter(t, sel)) <= Total(t)
  {
    if t != [] {
      assert NonNegative(t[1..]) by {
        assert forall i :: 0 <= i < |t| - 1 ==> t[1..][i] == t[i + 1];
      }
      TotalFilterBounded(t[1..], sel);
      var head := if Selects(sel, t[0]) then [t[0]] else [];
      TotalConcat(head, Filter(t[1..], sel));
    }
  }

  /** `column.max()` over the Date column of a non-empty frame: the greatest date string. */
  function MaxDate(rows: seq<Record>): (d: string)
    requires rows != []
    ensures exists r :: r in rows && r.date == d
  {
    if |rows| == 1 then rows[0].date
    else
      var rest := MaxDate(rows[1..]);
      assert exists r :: r in rows && r.date == rest by {
        var w :| w in rows[1..] && w.date == rest;
        assert w in rows;
      }
      Max(rows[0].date, rest)
  }

  /** The maximum bounds every date of the frame. */
  lemma {:induction false} MaxDateIsUpperBound(rows: seq<Record>)
    requires rows != []
    ensures forall r :: r in rows ==> Le(r.date, MaxDate(rows))
  {
    if |rows| > 1 {
      MaxDateIsUpperBound(rows[1..]);
      var rest := MaxDate(rows[1..]);
      forall r | r in rows
        ensures Le(r.date, MaxDate(rows))
      {
        if r != rows[0] {
          assert r in rows[1..];
          LeTransitive(r.date, rest, MaxDate(rows));
        }
      }
    } else {
      LeReflexive(rows[0].date);
    }
  }
}
