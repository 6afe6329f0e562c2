/** The `Database` class of main.py: the in-memory table, its two writes
    (`append_entry`, `update_entry`) and `commit`, which persists the table. */
module Storage {
  import opened StringOrder
  import opened Table

  /** The row `append_entry` adds for a first application of the day. */
  function NewRow(name: string, quantity: int, today: string): Record
  {
    Record(name, Applied, quantity, today)
  }

  /** The test of `append_entry`: the company's quantities sum to 0 (which includes
      having no rows), or the greatest of its Date strings is not today. */
  predicate OpensNewRow(t: seq<Record>, name: string, today: string)
  {
    var found := Search(t, name);
    Total(found) == 0 || MaxDate(found) != today
  }

  /** `.loc[Company == name, 'Quantity'] += quantity`: every row of the company,
      whatever its date, gains `quantity`; no other column and no other row changes. */
  function AddToCompany(t: seq<Record>, name: string, quantity: int): seq<Record>
  {
    if t == [] then []
    else [Bump(t[0], name, quantity)] + AddToCompany(t[1..], name, quantity)
  }

  function Bump(r: Record, name: string, quantity: int): Record
  {
    if r.company == name then r.(quantity := r.quantity + quantity) else r
  }

  lemma {:induction false} AddToCompanyAt(t: seq<Record>, name: string, quantity: int)
    ensures |AddToCompany(t, name, quantity)| == |t|
    ensures forall i :: 0 <= i < |t| ==> AddToCompany(t, name, quantity)[i] == Bump(t[i], name, quantity)
  {
    if t != [] {
      AddToCompanyAt(t[1..], name, quantity);
    }
  }

  /** The table after `append_entry(name, quantity)` on the day `today`. */
  function Appended(t: seq<Record>, name: string, quantity: int, today: string): (r: seq<Record>)
    ensures OpensNewRow(t, name, today) ==> r == t + [NewRow(name, quantity, today)]
    ensures !OpensNewRow(t, name, today) ==>
      && |r| == |t|
      && forall i :: 0 <= i < |t| ==>
        && r[i].company == t[i].company
        && r[i].status == t[i].status
        && r[i].date == t[i].date
        && r[i].quantity == t[i].quantity + (if t[i].company == name then quantity else 0)
  {
    if OpensNewRow(t, name, today) then t + [NewRow(name, quantity, today)]
    else
      AddToCompanyAt(t, name, quantity);
      AddToCompany(t, name, quantity)
  }

  /** `.loc[Company == name, 'Status'] = status`. */
  function Updated(t: seq<Record>, name: string, status: string): (r: seq<Record>)
    ensures |r| == |t|
    ensures forall i :: 0 <= i < |t| ==>
      && r[i].company == t[i].company
      && r[i].quantity == t[i].quantity
      && r[i].date == t[i].date
      && r[i].status == (if t[i].company == name then status else t[i].status)
  {
    if t == [] then []
    else
      var head := if t[0].company == name then t[0].(status := status) else t[0];
      [head] + Updated(t[1..], name, status)
  }

  /** Sum of a list of quantities. */
  function Sum(qs: seq<int>): int
  {
    if qs == [] then 0 else Sum(qs[..|qs| - 1]) + qs[|qs| - 1]
  }

  /** The table after `append_entry(name, qs[0])`, ..., `append_entry(name, qs[|qs|-1])`, all on `today`. */
  function AppendAll(t: seq<Record>, name: string, qs: seq<int>, today: string): seq<Record>
  {
    if qs == [] then t
    else Appended(AppendAll(t, name, qs[..|qs| - 1], today), name, qs[|qs| - 1], today)
  }

  lemma {:induction false} TotalAddToCompany(t: seq<Record>, name: string, quantity: int)
    ensures Total(AddToCompany(t, name, quantity)) == Total(t) + quantity * |Filter(t, CompanyIs(name))|
  {
    if t != [] {
      var n := |Filter(t[1..], CompanyIs(name))|;
      TotalAddToCompany(t[1..], name, quantity);
      assert AddToCompany(t, name, quantity)[1..] == AddToCompany(t[1..], name, quantity);
      if t[0].company == name {
        assert |Filter(t, CompanyIs(name))| == n + 1;
        MulSucc(quantity, n);
      } else {
        assert |Filter(t, CompanyIs(name))| == n;
      }
    }
  }

  /** The grand total rises by `quantity` when a row is appended, and by
      `quantity` times the company's row count when its rows are bumped in place. */
  lemma AppendTotal(t: seq<Record>, name: string, quantity: int, today: string)
    ensures Total(Appended(t, name, quantity, today)) ==
      Total(t) + (if OpensNewRow(t, name, today) then quantity else quantity * |Search(t, name)|)
  {
    if OpensNewRow(t, name, today) {
      TotalConcat(t, [NewRow(name, quantity, today)]);
    } else {
      TotalAddToCompany(t, name, quantity);
    }
  }

  lemma {:induction false} AddToCompanyKeepsOthers(t: seq<Record>, name: string, quantity: int, other: string)
    requires other != name
    ensures Search(AddToCompany(t, name, quantity), other) == Search(t, other)
  {
    if t != [] {
      AddToCompanyKeepsOthers(t[1..], name, quantity, other);
    }
  }

  /** Another company's rows are untouched by `append_entry(name, ...)`. */
  lemma AppendKeepsOtherCompanies(t: seq<Record>, name: string, quantity: int, today: string, other: string)
    requires other != name
    ensures Search(Appended(t, name, quantity, today), other) == Search(t, other)
  {
    if OpensNewRow(t, name, today) {
      FilterConcat(t, [NewRow(name, quantity, today)], CompanyIs(other));
    } else {
      AddToCompanyKeepsOthers(t, name, quantity, other);
    }
  }

  lemma {:induction false} SearchAddToCompany(t: seq<Record>, name: string, quantity: int)
    ensures Filter(AddToCompany(t, name, quantity), CompanyIs(name)) == AddToCompany(Filter(t, CompanyIs(name)), name, quantity)
  {
    if t != [] {
      var sel := CompanyIs(name);
      var bumped := AddToCompany(t, name, quantity);
      var rest := Filter(t[1..], sel);
      SearchAddToCompany(t[1..], name, quantity);
      assert bumped[1..] == AddToCompany(t[1..], name, quantity);
      if t[0].company == name {
        assert Filter(t, sel) == [t[0]] + rest;
        assert ([t[0]] + rest)[1..] == rest;
        assert Filter(bumped, sel) == [bumped[0]] + Filter(bumped[1..], sel);
      } else {
        assert Filter(t, sel) == rest;
        assert Filter(bumped, sel) == Filter(bumped[1..], sel);
      }
    }
  }

  /** Starting with no rows for `name`, same-day appends of positive quantities leave
      exactly one row for `name`, an `Applied` row dated today holding their sum. */
  lemma {:induction false} SameDayAppends(t: seq<Record>, name: string, qs: seq<int>, today: string)
    requires Search(t, name) == []
    requires qs != [] && forall i :: 0 <= i < |qs| ==> qs[i] > 0
    ensures Sum(qs) > 0
    ensures Search(AppendAll(t, name, qs, today), name) == [NewRow(name, Sum(qs), today)]
  {
    var n := |qs|;
    var init := qs[..n - 1];
    var q := qs[n - 1];
    assert Sum(qs) == Sum(init) + q;
    if n == 1 {
      assert init == [];
      assert AppendAll(t, name, qs, today) == Appended(t, name, q, today);
      assert OpensNewRow(t, name, today);
      FilterConcat(t, [NewRow(name, q, today)], CompanyIs(name));
      assert Filter([NewRow(name, q, today)], CompanyIs(name)) == [NewRow(name, q, today)];
    } else {
      assert forall i :: 0 <= i < |init| ==> init[i] == qs[i];
      SameDayAppends(t, name, init, today);
      var prev := AppendAll(t, name, init, today);
      var row := NewRow(name, Sum(init), today);
      assert AppendAll(t, name, qs, today) == Appended(prev, name, q, today);
      assert Search(prev, name) == [row];
      assert Total([row]) == Sum(init);
      assert !OpensNewRow(prev, name, today);
      SearchAddToCompany(prev, name, q);
      assert AddToCompany([row], name, q) == [Bump(row, name, q)];
      assert Bump(row, name, q) == NewRow(name, Sum(qs), today);
    }
  }

  /** The same appends leave every other company's rows as they were. */
  lemma {:induction false} AppendAllKeepsOtherCompanies(t: seq<Record>, name: string, qs: seq<int>, today: string, other: string)
    requires other != name
    ensures Search(AppendAll(t, name, qs, today), other) == Search(t, other)
  {
    if qs != [] {
      AppendAllKeepsOtherCompanies(t, name, qs[..|qs| - 1], today, other);
      AppendKeepsOtherCompanies(AppendAll(t, name, qs[..|qs| - 1], today), name, qs[|qs| - 1], today, other);
    }
  }

  /** `update_entry` changes nothing when no row has that company. */
  lemma {:induction false} UpdateNoMatch(t: seq<Record>, name: string, status: string)
    requires Search(t, name) == []
    ensures Updated(t, name, status) == t
  {
    if t != [] {
      FilterConcat([t[0]], t[1..], CompanyIs(name));
      assert [t[0]] + t[1..] == t;
      UpdateNoMatch(t[1..], name, status);
    }
  }

  /** After `update_entry(name, status)`, searching `name` gives the same rows as
      before, in the same order, each carrying the new status. */
  lemma {:induction false} SearchAfterUpdate(t: seq<Record>, name: string, status: string)
    ensures |Search(Updated(t, name, status), name)| == |Search(t, name)|
    ensures forall i :: 0 <= i < |Search(t, name)| ==>
      Search(Updated(t, name, status), name)[i] == Search(t, name)[i].(status := status)
  {
    if t != [] {
      SearchAfterUpdate(t[1..], name, status);
      FilterConcat([t[0]], t[1..], CompanyIs(name));
      assert [t[0]] + t[1..] == t;
    }
  }

  /** `update_entry` never changes the grand total. */
  lemma {:induction false} UpdateKeepsTotal(t: seq<Record>, name: string, status: string)
    ensures Total(Updated(t, name, status)) == Total(t)
  {
    if t != [] {
      UpdateKeepsTotal(t[1..], name, status);
    }
  }

  /** The `Database` object: its dataframe and the contents of `applications.csv`. */
  class Database {
    var table: seq<Record>
    var persisted: seq<Record>

    /** `__init__`: the dataframe is the table read from the file. */
    constructor (stored: seq<Record>)
      ensures table == stored && persisted == stored
    {
      table := stored;
      persisted := stored;
    }

    /** `commit`: write the dataframe back to the file. */
    method Commit()
      modifies this
      ensures table == old(table) && persisted == table
    {
      persisted := table;
    }

    method AppendEntry(name: string, quantity: int, today: string)
      modifies this
      ensures table == Appended(old(table), name, quantity, today)
      ensures persisted == table
    {
      var found := Search(table, name);
      if Total(found) == 0 || MaxDate(found) != today {
        table := table + [NewRow(name, quantity, today)];
      } else {
        var i := 0;
        while i < |table|
          invariant 0 <= i <= |table| == |old(table)|
          invariant forall k :: 0 <= k < i ==> table[k] == Bump(old(table)[k], name, quantity)
          invariant forall k :: i <= k < |table| ==> table[k] == old(table)[k]
        {
          if table[i].company == name {
            table := table[i := table[i].(quantity := table[i].quantity + quantity)];
          }
          i := i + 1;
        }
        AddToCompanyAt(old(table), name, quantity);
      }
      Commit();
    }

    method UpdateEntry(name: string, status: string)
      modifies this
      ensures table == Updated(old(table), name, status)
      ensures persisted == table
    {
      var i := 0;
      while i < |table|
        invariant 0 <= i <= |table| == |old(table)|
        invariant forall k :: 0 <= k < i ==> table[k] == Updated(old(table), name, status)[k]
        invariant forall k :: i <= k < |table| ==> table[k] == old(table)[k]
      {
        if table[i].company == name {
          table := table[i := table[i].(status := status)];
        }
        i := i + 1;
      }
      Commit();
    }
  }
}
