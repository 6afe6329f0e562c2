/** `AdminTools` of main.py: creating an empty `applications.csv` and the `clean`
    compaction, which collapses the table to one row per (Company, Status). */
module Admin {
  import opened StringOrder
  import opened Table

  /** The file `applications.csv`, as `os.listdir` and `read_csv` see it. */
  datatype Document = Missing | Present(rows: seq<Record>)

  datatype InitOutcome = Created | AlreadyInitialized

  /** `initialize_document`: write an empty table with the four columns, unless
      the file is already there, in which case report failure and write nothing. */
  function InitializeDocument(d: Document): (r: (Document, InitOutcome))
    ensures r.1 == AlreadyInitialized <==> d.Present?
    ensures d.Present? ==> r.0 == d
    ensures d.Missing? ==> r.0 == Present([])
  {
    match d
    case Missing => (Present([]), Created)
    case Present(_) => (d, AlreadyInitialized)
  }

  /** The groupby key of `aggregate`. */
  function KeyOf(r: Record): (string, string)
  {
    (r.company, r.status)
  }

  function GroupOf(r: Record): Selector
  {
    GroupIs(r.company, r.status)
  }

  function KeySet(s: seq<Record>): set<(string, string)>
  {
    set r | r in s :: KeyOf(r)
  }

  /** At most one row per (Company, Status). */
  predicate UniqueKeys(s: seq<Record>)
  {
    forall i, j :: 0 <= i < j < |s| ==> KeyOf(s[i]) != KeyOf(s[j])
  }

  /** `g` is the aggregate of its group in `t`: the group is not empty, `g` holds the
      group's summed Quantity (`np.sum`) and its greatest Date (`np.max`). */
  predicate Summarises(g: Record, t: seq<Record>)
  {
    var rows := Filter(t, GroupOf(g));
    rows != [] && g.quantity == Total(rows) && g.date == MaxDate(rows)
  }

  predicate SortedByDate(s: seq<Record>)
  {
    forall i, j :: 0 <= i < j < |s| ==> Le(s[i].date, s[j].date)
  }

  /** Position of the group of `r` in `acc`, or `|acc|` when it has none. */
  function IndexOfKey(acc: seq<Record>, r: Record): (i: nat)
    ensures i <= |acc|
    ensures i < |acc| ==> KeyOf(acc[i]) == KeyOf(r)
    ensures i == |acc| ==> forall j :: 0 <= j < |acc| ==> KeyOf(acc[j]) != KeyOf(r)
  {
    if acc == [] then 0
    else if KeyOf(acc[0]) == KeyOf(r) then 0
    else 1 + IndexOfKey(acc[1..], r)
  }

  /** Fold row `r` into the partial aggregate `acc`. */
  function Absorb(r: Record, acc: seq<Record>): seq<Record>
  {
    var i := IndexOfKey(acc, r);
    if i < |acc| then acc[i := acc[i].(quantity := r.quantity + acc[i].quantity, date := Max(r.date, acc[i].date))]
    else [r] + acc
  }

  /** `groupby(['Company','Status']).agg({'Quantity': np.sum, 'Date': np.max})`. */
  function Groups(t: seq<Record>): seq<Record>
  {
    if t == [] then [] else Absorb(t[0], Groups(t[1..]))
  }

  function Insert(x: Record, s: seq<Record>): seq<Record>
  {
    if s == [] then [x]
    else if Le(x.date, s[0].date) then [x] + s
    else [s[0]] + Insert(x, s[1..])
  }

  /** `sort_values(by='Date')`, with Date compared as a string. */
  function SortByDate(s: seq<Record>): seq<Record>
  {
    if s == [] then [] else Insert(s[0], SortByDate(s[1..]))
  }

  /** `aggregate`: the grouped table, ordered by Date. */
  function Aggregate(t: seq<Record>): seq<Record>
  {
    SortByDate(Groups(t))
  }

  // ---------------------------------------------------------------------------
  // Grouping

  lemma KeySetCons(r: Record, s: seq<Record>)
    ensures KeySet([r] + s) == {KeyOf(r)} + KeySet(s)
  {
    assert forall x :: x in [r] + s <==> x == r || x in s;
  }

  lemma {:induction false} UniqueKeysCons(r: Record, s: seq<Record>)
    ensures UniqueKeys([r] + s) <==> KeyOf(r) !in KeySet(s) && UniqueKeys(s)
  {
    var t := [r] + s;
    assert forall j :: 0 <= j < |s| ==> t[j + 1] == s[j];
    if KeyOf(r) in KeySet(s) {
      var w :| w in s && KeyOf(w) == KeyOf(r);
      var j :| 0 <= j < |s| && s[j] == w;
      assert KeyOf(t[0]) == KeyOf(t[j + 1]);
    }
  }

  /** A key absent from a table selects no row of it. */
  lemma AbsentGroupIsEmpty(r: Record, s: seq<Record>)
    requires KeyOf(r) !in KeySet(s)
    ensures Filter(s, GroupOf(r)) == []
  {
    FilterEmpty(s, GroupOf(r));
    forall i | 0 <= i < |s| ensures !Selects(GroupOf(r), s[i]) {
      assert s[i] in s;
    }
  }

  lemma {:induction false} TotalUpdate(s: seq<Record>, i: nat, x: Record)
    requires i < |s|
    ensures Total(s[i := x]) == Total(s) - s[i].quantity + x.quantity
  {
    if i > 0 {
      TotalUpdate(s[1..], i - 1, x);
      assert s[i := x][1..] == s[1..][i - 1 := x];
    }
  }

  /** The group of `g` in `[r] + rest`, split into its head and the rest. */
  lemma GroupOfCons(g: Record, r: Record, rest: seq<Record>)
    ensures Filter([r] + rest, GroupOf(g)) ==
      (if KeyOf(r) == KeyOf(g) then [r] else []) + Filter(rest, GroupOf(g))
  {
    assert ([r] + rest)[1..] == rest;
  }

  lemma AbsorbKeys(r: Record, acc: seq<Record>)
    ensures KeySet(Absorb(r, acc)) == {KeyOf(r)} + KeySet(acc)
    ensures UniqueKeys(acc) ==> UniqueKeys(Absorb(r, acc))
  {
    var i := IndexOfKey(acc, r);
    var out := Absorb(r, acc);
    if i < |acc| {
      assert |out| == |acc|;
      assert forall j :: 0 <= j < |out| ==> KeyOf(out[j]) == KeyOf(acc[j]);
      assert KeySet(out) == KeySet(acc) by {
        forall k | k in KeySet(out) ensures k in KeySet(acc) {
          var w :| w in out && KeyOf(w) == k;
          var j :| 0 <= j < |out| && out[j] == w;
          assert acc[j] in acc;
        }
        forall k | k in KeySet(acc) ensures k in KeySet(out) {
          var w :| w in acc && KeyOf(w) == k;
          var j :| 0 <= j < |acc| && acc[j] == w;
          assert out[j] in out;
        }
      }
      assert acc[i] in acc;
    } else {
      KeySetCons(r, acc);
      forall w | w in acc ensures KeyOf(w) != KeyOf(r) {
        var j :| 0 <= j < |acc| && acc[j] == w;
      }
      UniqueKeysCons(r, acc);
    }
  }

  lemma AbsorbTotal(r: Record, acc: seq<Record>)
    ensures Total(Absorb(r, acc)) == r.quantity + Total(acc)
  {
    var i := IndexOfKey(acc, r);
    if i < |acc| {
      TotalUpdate(acc, i, Absorb(r, acc)[i]);
    } else {
      assert Absorb(r, acc)[1..] == acc;
    }
  }

  /** The row at position `j` of one fold step summarises its group of `[r] + rest`. */
  lemma AbsorbSummarisesAt(r: Record, rest: seq<Record>, acc: seq<Record>, j: nat)
    requires UniqueKeys(acc) && KeySet(acc) == KeySet(rest)
    requires forall g :: g in acc ==> Summarises(g, rest)
    requires j < |Absorb(r, acc)|
    ensures Summarises(Absorb(r, acc)[j], [r] + rest)
  {
    var t := [r] + rest;
    var i := IndexOfKey(acc, r);
    var out := Absorb(r, acc);
    var g := out[j];
    GroupOfCons(g, r, rest);
    if i < |acc| {
      assert acc[j] in acc;
      if j == i {
        var rows := Filter(rest, GroupOf(acc[i]));
        assert Summarises(acc[i], rest);
        assert GroupOf(g) == GroupOf(acc[i]);
        assert Filter(t, GroupOf(g)) == [r] + rows;
        assert ([r] + rows)[1..] == rows;
      } else {
        assert g == acc[j];
        assert KeyOf(acc[j]) != KeyOf(acc[i]);
        assert Summarises(acc[j], rest);
        assert Filter(t, GroupOf(g)) == Filter(rest, GroupOf(g));
      }
    } else if j == 0 {
      assert g == r;
      assert KeyOf(r) !in KeySet(rest) by {
        forall w | w in acc ensures KeyOf(w) != KeyOf(r) {
          var k :| 0 <= k < |acc| && acc[k] == w;
        }
      }
      AbsentGroupIsEmpty(r, rest);
      assert Filter(t, GroupOf(g)) == [r];
    } else {
      assert g == acc[j - 1];
      assert acc[j - 1] in acc;
      assert KeyOf(g) != KeyOf(r);
      assert Summarises(g, rest);
      assert Filter(t, GroupOf(g)) == Filter(rest, GroupOf(g));
    }
  }

  lemma {:induction false} GroupsFacts(t: seq<Record>)
    ensures UniqueKeys(Groups(t)) && KeySet(Groups(t)) == KeySet(t)
    ensures forall g :: g in Groups(t) ==> Summarises(g, t)
    ensures Total(Groups(t)) == Total(t)
  {
    if t != [] {
      var acc := Groups(t[1..]);
      GroupsFacts(t[1..]);
      assert t == [t[0]] + t[1..];
      AbsorbKeys(t[0], acc);
      KeySetCons(t[0], t[1..]);
      AbsorbTotal(t[0], acc);
      assert Total(t) == t[0].quantity + Total(t[1..]);
      forall g | g in Groups(t) ensures Summarises(g, t) {
        var j :| 0 <= j < |Groups(t)| && Groups(t)[j] == g;
        AbsorbSummarisesAt(t[0], t[1..], acc, j);
      }
    }
  }

  /** Grouping a table that already has one row per group changes nothing. */
  lemma {:induction false} GroupsOfUnique(u: seq<Record>)
    requires UniqueKeys(u)
    ensures Groups(u) == u
  {
    if u != [] {
      assert u == [u[0]] + u[1..];
      UniqueKeysCons(u[0], u[1..]);
      GroupsOfUnique(u[1..]);
    }
  }

  // ---------------------------------------------------------------------------
  // Sorting

  lemma {:induction false} InsertMembers(x: Record, s: seq<Record>)
    ensures forall y :: y in Insert(x, s) <==> y == x || y in s
  {
    if s != [] && !Le(x.date, s[0].date) {
      InsertMembers(x, s[1..]);
      assert s == [s[0]] + s[1..];
    }
  }

  lemma {:induction false} InsertPermutes(x: Record, s: seq<Record>)
    ensures multiset(Insert(x, s)) == multiset(s) + multiset{x}
  {
    if s != [] && !Le(x.date, s[0].date) {
      InsertPermutes(x, s[1..]);
      assert s == [s[0]] + s[1..];
    }
  }

  lemma {:induction false} InsertTotal(x: Record, s: seq<Record>)
    ensures Total(Insert(x, s)) == x.quantity + Total(s)
  {
    if s != [] && !Le(x.date, s[0].date) {
      InsertTotal(x, s[1..]);
      assert Insert(x, s)[1..] == Insert(x, s[1..]);
    } else if s != [] {
      assert Insert(x, s)[1..] == s;
    }
  }

  lemma SortedTail(s: seq<Record>)
    requires s != [] && SortedByDate(s)
    ensures SortedByDate(s[1..])
  {
    forall i, j | 0 <= i < j < |s[1..]| ensures Le(s[1..][i].date, s[1..][j].date) {
      assert s[1..][i] == s[i + 1] && s[1..][j] == s[j + 1];
    }
  }

  lemma {:induction false} InsertSorted(x: Record, s: seq<Record>)
    requires SortedByDate(s)
    ensures SortedByDate(Insert(x, s))
  {
    if s == [] {
    } else if Le(x.date, s[0].date) {
      forall i, j | 0 <= i < j < |[x] + s| ensures Le(([x] + s)[i].date, ([x] + s)[j].date) {
        if i == 0 && j > 1 {
          LeTransitive(x.date, s[0].date, s[j - 1].date);
        }
      }
    } else {
      var rest := Insert(x, s[1..]);
      SortedTail(s);
      InsertSorted(x, s[1..]);
      InsertMembers(x, s[1..]);
      LeTotal(x.date, s[0].date);
      forall k | 0 <= k < |rest| ensures Le(s[0].date, rest[k].date) {
        if rest[k] != x {
          assert rest[k] in s[1..];
          var m :| 0 <= m < |s[1..]| && s[1..][m] == rest[k];
          assert s[m + 1] == rest[k];
        }
      }
      var out := Insert(x, s);
      assert out == [s[0]] + rest;
      forall i, j | 0 <= i < j < |out| ensures Le(out[i].date, out[j].date) {
        if i > 0 {
          assert out[i] == rest[i - 1] && out[j] == rest[j - 1];
        } else {
          assert out[j] == rest[j - 1];
        }
      }
    }
  }

  lemma {:induction false} SortFacts(s: seq<Record>)
    ensures multiset(SortByDate(s)) == multiset(s)
    ensures forall y :: y in SortByDate(s) <==> y in s
    ensures Total(SortByDate(s)) == Total(s)
    ensures SortedByDate(SortByDate(s))
  {
    if s != [] {
      var sorted := SortByDate(s[1..]);
      SortFacts(s[1..]);
      InsertPermutes(s[0], sorted);
      InsertMembers(s[0], sorted);
      InsertTotal(s[0], sorted);
      InsertSorted(s[0], sorted);
      assert s == [s[0]] + s[1..];
    }
  }

  lemma {:induction false} InsertUnique(x: Record, s: seq<Record>)
    requires UniqueKeys(s) && KeyOf(x) !in KeySet(s)
    ensures UniqueKeys(Insert(x, s))
  {
    UniqueKeysCons(x, s);
    if s != [] && !Le(x.date, s[0].date) {
      assert s == [s[0]] + s[1..];
      UniqueKeysCons(s[0], s[1..]);
      KeySetCons(s[0], s[1..]);
      InsertUnique(x, s[1..]);
      InsertMembers(x, s[1..]);
      var rest := Insert(x, s[1..]);
      forall w | w in rest ensures KeyOf(w) != KeyOf(s[0]) {
        if w != x {
          assert KeyOf(w) in KeySet(s[1..]);
        } else {
          assert s[0] in s;
        }
      }
      UniqueKeysCons(s[0], rest);
    }
  }

  lemma {:induction false} SortUnique(s: seq<Record>)
    requires UniqueKeys(s)
    ensures UniqueKeys(SortByDate(s))
  {
    if s != [] {
      assert s == [s[0]] + s[1..];
      UniqueKeysCons(s[0], s[1..]);
      SortUnique(s[1..]);
      SortFacts(s[1..]);
      var sorted := SortByDate(s[1..]);
      forall w | w in sorted ensures KeyOf(w) != KeyOf(s[0]) {
        assert KeyOf(w) in KeySet(s[1..]);
      }
      InsertUnique(s[0], sorted);
    }
  }

  /** Sorting an already sorted table leaves it as it is. */
  lemma {:induction false} SortOfSorted(s: seq<Record>)
    requires SortedByDate(s)
    ensures SortByDate(s) == s
  {
    if s != [] {
      SortedTail(s);
      SortOfSorted(s[1..]);
      assert s == [s[0]] + s[1..];
    }
  }

  // ---------------------------------------------------------------------------
  // What `aggregate` promises

  /** One row per (Company, Status), and exactly the groups present in the input. */
  lemma AggregateOneRowPerGroup(t: seq<Record>)
    ensures UniqueKeys(Aggregate(t))
    ensures KeySet(Aggregate(t)) == KeySet(t)
  {
    GroupsFacts(t);
    SortUnique(Groups(t));
    SortFacts(Groups(t));
  }

  /** Each output row carries its group's summed Quantity and greatest Date. */
  lemma AggregateSummarises(t: seq<Record>)
    ensures forall g :: g in Aggregate(t) ==> Summarises(g, t)
  {
    GroupsFacts(t);
    SortFacts(Groups(t));
  }

  /** Compaction never changes the grand total. */
  lemma AggregateTotal(t: seq<Record>)
    ensures Total(Aggregate(t)) == Total(t)
  {
    GroupsFacts(t);
    SortFacts(Groups(t));
  }

  /** The output is in ascending Date order and holds exactly the grouped rows. */
  lemma AggregateSorted(t: seq<Record>)
    ensures SortedByDate(Aggregate(t))
    ensures multiset(Aggregate(t)) == multiset(Groups(t))
  {
    SortFacts(Groups(t));
  }

  /** Running `clean` twice gives the same rows as running it once. */
  lemma AggregateIdempotent(t: seq<Record>)
    ensures multiset(Aggregate(Aggregate(t))) == multiset(Aggregate(t))
  {
    var once := Aggregate(t);
    AggregateOneRowPerGroup(t);
    GroupsOfUnique(once);
    AggregateSorted(t);
    SortOfSorted(once);
  }

  /** Entries of 2 and 3 on two days collapse into one row with 5 and the later date. */
  lemma TwoDaysCollapse()
    ensures Aggregate([Record("Acme", Applied, 2, "14/10/2026"), Record("Acme", Applied, 3, "15/10/2026")]) ==
      [Record("Acme", Applied, 5, "15/10/2026")]
  {
    var t := [Record("Acme", Applied, 2, "14/10/2026"), Record("Acme", Applied, 3, "15/10/2026")];
    assert t[1..] == [t[1]];
    assert Groups([t[1]]) == [t[1]];
    assert Le("14/10/2026", "15/10/2026");
    var g := Record("Acme", Applied, 5, "15/10/2026");
    assert Groups(t) == [g];
    assert [g][1..] == [];
    assert SortByDate([g]) == Insert(g, []);
  }

  /** Dates compare as `dd/mm/YYYY` strings: a group spanning the turn of the year
      keeps "31/12/2025" as its Date, not the later "01/01/2026". */
  lemma YearTurnKeepsDecember()
    ensures Aggregate([Record("Acme", Applied, 1, "31/12/2025"), Record("Acme", Applied, 1, "01/01/2026")]) ==
      [Record("Acme", Applied, 2, "31/12/2025")]
  {
    var t := [Record("Acme", Applied, 1, "31/12/2025"), Record("Acme", Applied, 1, "01/01/2026")];
    assert t[1..] == [t[1]];
    assert Groups([t[1]]) == [t[1]];
    assert Le("01/01/2026", "31/12/2025");
    var g := Record("Acme", Applied, 2, "31/12/2025");
    assert Groups(t) == [g];
    assert [g][1..] == [];
    assert SortByDate([g]) == Insert(g, []);
  }
}
