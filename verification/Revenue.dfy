/** Revenue grouped by label (analytics/analytics.service.ts). */
module Revenue {
  import opened Rounding

  /** A payment as the report sees it: which group it falls in, and what it brought in. */
  datatype Row = Row(name: string, amount: real, refundedAmount: real)

  datatype Group = Group(name: string, value: real, count: nat)

  function Net(r: Row): real {
    r.amount - r.refundedAmount
  }

  /** `revenueNet`: the sums are taken separately and then subtracted. */
  function RevenueNet(rows: seq<Row>): real {
    TotalAmount(rows) - TotalRefunded(rows)
  }

  function TotalAmount(rows: seq<Row>): real {
    if rows == [] then 0.0 else TotalAmount(rows[..|rows| - 1]) + rows[|rows| - 1].amount
  }

  function TotalRefunded(rows: seq<Row>): real {
    if rows == [] then 0.0 else TotalRefunded(rows[..|rows| - 1]) + rows[|rows| - 1].refundedAmount
  }

  // ---- the grouping map: entries in order of first insertion ----

  function Position(groups: seq<Group>, name: string): (p: nat)
    ensures p <= |groups|
    ensures p < |groups| ==> groups[p].name == name
    ensures forall i | 0 <= i < p :: groups[i].name != name
  {
    if groups == [] || groups[0].name == name then 0 else 1 + Position(groups[1..], name)
  }

  function Book(groups: seq<Group>, r: Row): seq<Group> {
    var p := Position(groups, r.name);
    if p == |groups| then groups + [Group(r.name, Net(r), 1)]
    else groups[p := Group(r.name, groups[p].value + Net(r), groups[p].count + 1)]
  }

  function Grouped(rows: seq<Row>): seq<Group> {
    if rows == [] then [] else Book(Grouped(rows[..|rows| - 1]), rows[|rows| - 1])
  }

  function RoundedGroups(groups: seq<Group>): seq<Group> {
    if groups == [] then []
    else
      var last := groups[|groups| - 1];
      RoundedGroups(groups[..|groups| - 1]) + [last.(value := TwoDecimals(last.value))]
  }

  function Insert(sorted: seq<Group>, g: Group): seq<Group> {
    if sorted == [] then [g]
    else if sorted[0].value < g.value then [g] + sorted
    else [sorted[0]] + Insert(sorted[1..], g)
  }

  /** The stable sort by descending value. */
  function SortedByValue(groups: seq<Group>): seq<Group> {
    if groups == [] then [] else Insert(SortedByValue(groups[..|groups| - 1]), groups[|groups| - 1])
  }

  function GroupNet(rows: seq<Row>): seq<Group> {
    SortedByValue(RoundedGroups(Grouped(rows)))
  }

  // ---- totals over groups ----

  function TotalValue(groups: seq<Group>): real {
    if groups == [] then 0.0 else TotalValue(groups[..|groups| - 1]) + groups[|groups| - 1].value
  }

  function TotalCount(groups: seq<Group>): nat {
    if groups == [] then 0 else TotalCount(groups[..|groups| - 1]) + groups[|groups| - 1].count
  }

  ghost predicate DistinctNames(groups: seq<Group>) {
    forall i, j | 0 <= i < j < |groups| :: groups[i].name != groups[j].name
  }

  ghost predicate Descending(groups: seq<Group>) {
    forall i, j | 0 <= i < j < |groups| :: groups[i].value >= groups[j].value
  }

  lemma {:induction false} TotalsAfterUpdate(groups: seq<Group>, p: nat, g: Group)
    requires p < |groups|
    ensures TotalValue(groups[p := g]) == TotalValue(groups) - groups[p].value + g.value
    ensures TotalCount(groups[p := g]) == TotalCount(groups) - groups[p].count + g.count
  {
    var last := |groups| - 1;
    if p < last {
      TotalsAfterUpdate(groups[..last], p, g);
      assert groups[p := g][..last] == groups[..last][p := g];
    } else {
      assert groups[p := g][..last] == groups[..last];
    }
  }

  lemma BookingARow(groups: seq<Group>, r: Row)
    requires DistinctNames(groups)
    ensures DistinctNames(Book(groups, r))
    ensures TotalValue(Book(groups, r)) == TotalValue(groups) + Net(r)
    ensures TotalCount(Book(groups, r)) == TotalCount(groups) + 1
  {
    var p := Position(groups, r.name);
    if p == |groups| {
      assert Book(groups, r)[..p] == groups;
    } else {
      TotalsAfterUpdate(groups, p, Group(r.name, groups[p].value + Net(r), groups[p].count + 1));
    }
  }

  lemma {:induction false} GroupingConserves(rows: seq<Row>)
    ensures DistinctNames(Grouped(rows))
    ensures TotalValue(Grouped(rows)) == RevenueNet(rows)
    ensures TotalCount(Grouped(rows)) == |rows|
  {
    if rows != [] {
      GroupingConserves(rows[..|rows| - 1]);
      BookingARow(Grouped(rows[..|rows| - 1]), rows[|rows| - 1]);
    }
  }

  /** Net revenue of one label, straight from the rows. */
  function NetOf(rows: seq<Row>, name: string): real {
    if rows == [] then 0.0
    else NetOf(rows[..|rows| - 1], name) + if rows[|rows| - 1].name == name then Net(rows[|rows| - 1]) else 0.0
  }

  /** Each payment lands in its own group: the group's value is the net of its rows, and every row has a group. */
  lemma {:induction false} GroupsHoldTheirOwnRows(rows: seq<Row>, i: nat)
    requires i < |Grouped(rows)|
    ensures Grouped(rows)[i].value == NetOf(rows, Grouped(rows)[i].name)
  {
    var n := |rows| - 1;
    var before := Grouped(rows[..n]);
    GroupingConserves(rows[..n]);
    var p := Position(before, rows[n].name);
    if i < |before| {
      GroupsHoldTheirOwnRows(rows[..n], i);
    } else {
      NoGroupNoNet(rows[..n], rows[n].name);
    }
  }

  /** Booking a row keeps every label and adds the row's own. */
  lemma BookKeepsNames(groups: seq<Group>, r: Row)
    ensures |groups| <= |Book(groups, r)|
    ensures forall i | 0 <= i < |groups| :: Book(groups, r)[i].name == groups[i].name
    ensures Position(groups, r.name) < |Book(groups, r)| && Book(groups, r)[Position(groups, r.name)].name == r.name
  {
  }

  lemma {:induction false} NoGroupNoNet(rows: seq<Row>, name: string)
    requires forall i | 0 <= i < |Grouped(rows)| :: Grouped(rows)[i].name != name
    ensures NetOf(rows, name) == 0.0
  {
    if rows != [] {
      var n := |rows| - 1;
      BookKeepsNames(Grouped(rows[..n]), rows[n]);
      assert Grouped(rows) == Book(Grouped(rows[..n]), rows[n]);
      forall i | 0 <= i < |Grouped(rows[..n])| ensures Grouped(rows[..n])[i].name != name {
        assert Grouped(rows)[i].name != name;
      }
      NoGroupNoNet(rows[..n], name);
    }
  }

  // ---- rounding ----

  lemma {:induction false} RoundingKeepsShape(groups: seq<Group>)
    ensures |RoundedGroups(groups)| == |groups|
    ensures forall i | 0 <= i < |groups| ::
      RoundedGroups(groups)[i] == groups[i].(value := TwoDecimals(groups[i].value))
  {
    if groups != [] {
      RoundingKeepsShape(groups[..|groups| - 1]);
    }
  }

  lemma {:induction false} RoundingKeepsCount(groups: seq<Group>)
    ensures TotalCount(RoundedGroups(groups)) == TotalCount(groups)
  {
    if groups != [] {
      var n := |groups| - 1;
      RoundingKeepsCount(groups[..n]);
      assert RoundedGroups(groups)[..|RoundedGroups(groups)| - 1] == RoundedGroups(groups[..n]);
    }
  }

  lemma {:induction false} RoundingDrift(groups: seq<Group>)
    ensures -0.005 * |groups| as real <=
      TotalValue(RoundedGroups(groups)) - TotalValue(groups) <= 0.005 * |groups| as real
    ensures (forall g | g in groups :: IsPaise(g.value)) ==> TotalValue(RoundedGroups(groups)) == TotalValue(groups)
  {
    if groups != [] {
      var n := |groups| - 1;
      RoundingDrift(groups[..n]);
      RoundingError(groups[n].value);
      assert RoundedGroups(groups)[..|RoundedGroups(groups)| - 1] == RoundedGroups(groups[..n]);
      if forall g | g in groups :: IsPaise(g.value) {
        assert groups[n] in groups;
        PaiseAreNotRounded(groups[n].value);
      }
    }
  }

  // ---- sorting ----

  lemma {:induction false} InsertElements(sorted: seq<Group>, g: Group)
    ensures |Insert(sorted, g)| == |sorted| + 1
    ensures forall x :: x in Insert(sorted, g) <==> x == g || x in sorted
  {
    if sorted != [] && sorted[0].value >= g.value {
      InsertElements(sorted[1..], g);
      assert sorted == [sorted[0]] + sorted[1..];
    }
  }

  lemma {:induction false} InsertKeepsOrder(sorted: seq<Group>, g: Group)
    requires Descending(sorted)
    ensures Descending(Insert(sorted, g))
  {
    if sorted != [] && sorted[0].value >= g.value {
      InsertKeepsOrder(sorted[1..], g);
      InsertElements(sorted[1..], g);
      var rest := Insert(sorted[1..], g);
      forall i | 0 <= i < |rest| ensures rest[i].value <= sorted[0].value {
        assert rest[i] in rest;
      }
    }
  }

  lemma {:induction false} InsertAddsOne(sorted: seq<Group>, g: Group)
    ensures multiset(Insert(sorted, g)) == multiset(sorted) + multiset{g}
  {
    if sorted != [] && sorted[0].value >= g.value {
      InsertAddsOne(sorted[1..], g);
      assert sorted == [sorted[0]] + sorted[1..];
    }
  }

  lemma {:induction false} SortKeeps(groups: seq<Group>)
    ensures Descending(SortedByValue(groups))
    ensures multiset(SortedByValue(groups)) == multiset(groups)
  {
    if groups != [] {
      var n := |groups| - 1;
      SortKeeps(groups[..n]);
      InsertKeepsOrder(SortedByValue(groups[..n]), groups[n]);
      InsertAddsOne(SortedByValue(groups[..n]), groups[n]);
      assert groups == groups[..n] + [groups[n]];
    }
  }

  lemma {:induction false} TotalsFromTheFront(g: Group, groups: seq<Group>)
    ensures TotalValue([g] + groups) == g.value + TotalValue(groups)
    ensures TotalCount([g] + groups) == g.count + TotalCount(groups)
  {
    if groups == [] {
      assert ([g] + groups)[..0] == [];
    } else {
      var n := |groups| - 1;
      TotalsFromTheFront(g, groups[..n]);
      assert ([g] + groups)[..n + 1] == [g] + groups[..n];
    }
  }

  lemma {:induction false} InsertTotals(sorted: seq<Group>, g: Group)
    ensures TotalValue(Insert(sorted, g)) == TotalValue(sorted) + g.value
    ensures TotalCount(Insert(sorted, g)) == TotalCount(sorted) + g.count
  {
    if sorted == [] || sorted[0].value < g.value {
      TotalsFromTheFront(g, sorted);
      assert Insert(sorted, g) == [g] + sorted;
    } else {
      InsertTotals(sorted[1..], g);
      TotalsFromTheFront(sorted[0], sorted[1..]);
      TotalsFromTheFront(sorted[0], Insert(sorted[1..], g));
      assert sorted == [sorted[0]] + sorted[1..];
    }
  }

  lemma {:induction false} InsertDistinct(sorted: seq<Group>, g: Group)
    requires DistinctNames(sorted) && forall x | x in sorted :: x.name != g.name
    ensures DistinctNames(Insert(sorted, g))
  {
    if sorted != [] && sorted[0].value >= g.value {
      var rest := Insert(sorted[1..], g);
      InsertElements(sorted[1..], g);
      InsertDistinct(sorted[1..], g);
      forall i | 0 <= i < |rest| ensures rest[i].name != sorted[0].name {
        assert rest[i] in rest && sorted[0] in sorted;
      }
    }
  }

  lemma {:induction false} SortTotals(groups: seq<Group>)
    ensures TotalValue(SortedByValue(groups)) == TotalValue(groups)
    ensures TotalCount(SortedByValue(groups)) == TotalCount(groups)
    ensures |SortedByValue(groups)| == |groups|
    ensures forall x :: x in SortedByValue(groups) <==> x in groups
    ensures DistinctNames(groups) ==> DistinctNames(SortedByValue(groups))
  {
    if groups != [] {
      var n := |groups| - 1;
      SortTotals(groups[..n]);
      var before := SortedByValue(groups[..n]);
      InsertTotals(before, groups[n]);
      InsertElements(before, groups[n]);
      assert groups == groups[..n] + [groups[n]];
      if DistinctNames(groups) {
        InsertDistinct(before, groups[n]);
      }
    }
  }

  lemma {:induction false} PaiseRowsMakePaiseGroups(rows: seq<Row>)
    requires forall r | r in rows :: IsPaise(r.amount) && IsPaise(r.refundedAmount)
    ensures forall g | g in Grouped(rows) :: IsPaise(g.value)
  {
    if rows != [] {
      var n := |rows| - 1;
      var r := rows[n];
      assert r in rows;
      PaiseRowsMakePaiseGroups(rows[..n]);
      PaiseArithmetic(r.amount, r.refundedAmount);
      var before := Grouped(rows[..n]);
      var p := Position(before, r.name);
      if p < |before| {
        assert before[p] in before;
        PaiseArithmetic(before[p].value, Net(r));
      }
    }
  }

  /** Grouping conserves money and payments: each label once, best earner first, every payment counted, and the
      group values add up to the net revenue, to the paisa when amounts are in paise and otherwise within half
      a paisa for each group. */
  lemma RevenueIsConserved(rows: seq<Row>)
    ensures var groups := GroupNet(rows);
      && DistinctNames(groups) && Descending(groups)
      && TotalCount(groups) == |rows|
      && -0.005 * |groups| as real <= TotalValue(groups) - RevenueNet(rows) <= 0.005 * |groups| as real
      && ((forall r | r in rows :: IsPaise(r.amount) && IsPaise(r.refundedAmount)) ==>
            TotalValue(groups) == RevenueNet(rows))
  {
    var grouped := Grouped(rows);
    var rounded := RoundedGroups(grouped);
    GroupingConserves(rows);
    RoundingKeepsShape(grouped);
    RoundingKeepsCount(grouped);
    RoundingDrift(grouped);
    SortKeeps(rounded);
    SortTotals(rounded);
    if forall r | r in rows :: IsPaise(r.amount) && IsPaise(r.refundedAmount) {
      PaiseRowsMakePaiseGroups(rows);
    }
  }

  /** The number of payments with one label. */
  function CountOf(rows: seq<Row>, name: string): nat {
    if rows == [] then 0
    else CountOf(rows[..|rows| - 1], name) + if rows[|rows| - 1].name == name then 1 else 0
  }

  lemma {:induction false} GroupsCountTheirOwnRows(rows: seq<Row>, i: nat)
    requires i < |Grouped(rows)|
    ensures Grouped(rows)[i].count == CountOf(rows, Grouped(rows)[i].name)
  {
    var n := |rows| - 1;
    var before := Grouped(rows[..n]);
    GroupingConserves(rows[..n]);
    var p := Position(before, rows[n].name);
    if i < |before| {
      GroupsCountTheirOwnRows(rows[..n], i);
    } else {
      NoGroupNoCount(rows[..n], rows[n].name);
    }
  }

  lemma {:induction false} NoGroupNoCount(rows: seq<Row>, name: string)
    requires forall i | 0 <= i < |Grouped(rows)| :: Grouped(rows)[i].name != name
    ensures CountOf(rows, name) == 0
  {
    if rows != [] {
      var n := |rows| - 1;
      BookKeepsNames(Grouped(rows[..n]), rows[n]);
      assert Grouped(rows) == Book(Grouped(rows[..n]), rows[n]);
      forall i | 0 <= i < |Grouped(rows[..n])| ensures Grouped(rows[..n])[i].name != name {
        assert Grouped(rows)[i].name != name;
      }
      NoGroupNoCount(rows[..n], name);
    }
  }

  /** Every group reported counts exactly the payments with its label and is worth their net, to the paisa when
      amounts are in paise and otherwise within half a paisa. */
  lemma ReportedGroupsHoldTheirOwnRows(rows: seq<Row>, g: Group)
    requires g in GroupNet(rows)
    ensures g.count == CountOf(rows, g.name) > 0
    ensures -0.005 <= g.value - NetOf(rows, g.name) <= 0.005
    ensures (forall r | r in rows :: IsPaise(r.amount) && IsPaise(r.refundedAmount)) ==> g.value == NetOf(rows, g.name)
  {
    var grouped := Grouped(rows);
    SortTotals(RoundedGroups(grouped));
    RoundingKeepsShape(grouped);
    var i :| 0 <= i < |grouped| && RoundedGroups(grouped)[i] == g;
    GroupsHoldTheirOwnRows(rows, i);
    GroupsCountTheirOwnRows(rows, i);
    GroupsAreNotEmpty(rows, i);
    RoundingError(grouped[i].value);
    if forall r | r in rows :: IsPaise(r.amount) && IsPaise(r.refundedAmount) {
      PaiseRowsMakePaiseGroups(rows);
      assert grouped[i] in grouped;
      PaiseAreNotRounded(grouped[i].value);
    }
  }

  lemma {:induction false} GroupsAreNotEmpty(rows: seq<Row>, i: nat)
    requires i < |Grouped(rows)|
    ensures Grouped(rows)[i].count > 0
  {
    var n := |rows| - 1;
    if i < |Grouped(rows[..n])| {
      GroupsAreNotEmpty(rows[..n], i);
    }
  }

  /** And every payment is in a group reported. */
  lemma EveryLabelIsReported(rows: seq<Row>, name: string)
    ensures CountOf(rows, name) > 0 <==> exists g :: g in GroupNet(rows) && g.name == name
  {
    var grouped := Grouped(rows);
    SortTotals(RoundedGroups(grouped));
    RoundingKeepsShape(grouped);
    if g :| g in GroupNet(rows) && g.name == name {
      ReportedGroupsHoldTheirOwnRows(rows, g);
    } else {
      forall i | 0 <= i < |grouped| ensures grouped[i].name != name {
        assert RoundedGroups(grouped)[i] in RoundedGroups(grouped);
        assert RoundedGroups(grouped)[i] in GroupNet(rows);
      }
      NoGroupNoCount(rows, name);
    }
  }

  // ---- the report as it is computed ----

  method ComputeGroupNet(rows: seq<Row>) returns (groups: seq<Group>)
    ensures groups == GroupNet(rows)
  {
    var order: seq<string> := [];
    var totals: map<string, (real, nat)> := map[];
    for i := 0 to |rows|
      invariant Represents(order, totals, Grouped(rows[..i]))
    {
      order, totals := BookRow(order, totals, rows[i], Grouped(rows[..i]));
      OneMoreRow(rows, i);
    }
    assert rows[..|rows|] == rows;
    var rounded := RoundEntries(order, totals, Grouped(rows));
    groups := SortedByValue(rounded);
  }

  method BookRow(order: seq<string>, totals: map<string, (real, nat)>, r: Row, ghost groups: seq<Group>)
    returns (order': seq<string>, totals': map<string, (real, nat)>)
    requires Represents(order, totals, groups)
    ensures Represents(order', totals', Book(groups, r))
  {
    var cur := if r.name in totals then totals[r.name] else (0.0, 0);
    totals' := totals[r.name := (cur.0 + r.amount - r.refundedAmount, cur.1 + 1)];
    ghost var p := Position(groups, r.name);
    if r.name in totals {
      assert p < |groups|;
      order' := order;
    } else {
      assert p == |groups|;
      order' := order + [r.name];
    }
  }

  method RoundEntries(order: seq<string>, totals: map<string, (real, nat)>, ghost grouped: seq<Group>)
    returns (rounded: seq<Group>)
    requires Represents(order, totals, grouped)
    ensures rounded == RoundedGroups(grouped)
  {
    rounded := [];
    for i := 0 to |order|
      invariant rounded == RoundedGroups(grouped[..i])
    {
      var name := order[i];
      rounded := rounded + [Group(name, TwoDecimals(totals[name].0), totals[name].1)];
      assert grouped[..i + 1][..i] == grouped[..i];
    }
    assert grouped[..|grouped|] == grouped;
  }

  lemma OneMoreRow(rows: seq<Row>, i: nat)
    requires i < |rows|
    ensures Grouped(rows[..i + 1]) == Book(Grouped(rows[..i]), rows[i])
  {
    assert rows[..i + 1][..i] == rows[..i];
  }

  /** The insertion-ordered map, spelled out as its entries. */
  ghost predicate Represents(order: seq<string>, totals: map<string, (real, nat)>, groups: seq<Group>) {
    && |order| == |groups|
    && (forall name :: name in totals <==> name in order)
    && (forall i, j | 0 <= i < j < |order| :: order[i] != order[j])
    && (forall i | 0 <= i < |order| ::
          order[i] in totals && groups[i] == Group(order[i], totals[order[i]].0, totals[order[i]].1))
  }
}
