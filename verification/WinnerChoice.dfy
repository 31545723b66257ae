/** Winner choice and the per-rung rollup of `gemma4_h100_kernel_tuner.py`, for any way of
    judging a variant's records. */
module WinnerChoice {
  import opened Common
  import opened TrialSchedule

  datatype Gates = Gates(minimumSpeedup: real, maximumTrialSlowdown: real, maximumRelativeMad: real,
                         maximumClockDrift: real, minimumCounterChange: real, allowSpills: bool)

  predicate GatesOk(g: Gates) {
    && g.minimumSpeedup >= 1.0 && g.maximumTrialSlowdown >= 1.0 && g.maximumRelativeMad > 0.0
    && 0.0 < g.maximumClockDrift < 1.0 && 0.0 <= g.minimumCounterChange < 1.0
  }

  predicate ResourceClean(r: Resource) {
    r.spills == 0 && r.stackBytes == 0 && r.spillStores == 0 && r.spillLoads == 0
  }

  datatype Row = Row(variant: Variant, median: real, speedup: real, savings: real, noiseFloor: real,
                     qualified: bool)

  /** Judges a variant from its own records and the reference's. */
  type Judge<!T> = (Variant, seq<Timing<T>>, seq<Timing<T>>) --> Row

  /** What a candidate that qualifies has shown. */
  predicate Cleared(r: Row, g: Gates) {
    && r.speedup >= g.minimumSpeedup
    && r.savings > r.noiseFloor >= 0.0
    && (g.allowSpills || ResourceClean(r.variant.compiled))
  }

  predicate FairRow(r: Row, v: Variant, g: Gates) {
    && r.variant == v && r.median > 0.0
    && (v.reference ==> r.qualified)
    && (r.qualified && !v.reference ==> Cleared(r, g))
  }

  ghost predicate Fair<T(!new)>(judge: Judge<T>, g: Gates) {
    forall v, records, anchors :: RecordsOk(v, records) && ReferenceOk(anchors) ==>
      judge.requires(v, records, anchors) && FairRow(judge(v, records, anchors), v, g)
  }

  function RowOf<T(!new)>(e: Entry, v: Variant, timings: Timings<T>, judge: Judge<T>, ghost g: Gates): (r: Row)
    requires Planned(e) && v in e.variants && ScheduleOk(timings, e) && Fair(judge, g)
    ensures FairRow(r, v, g)
  {
    assert RecordsOk(v, Filed(timings, e.profile.key, v.name));
    assert RecordsOk(Reference(e), Filed(timings, e.profile.key, Reference(e).name));
    judge(v, Filed(timings, e.profile.key, v.name), Filed(timings, e.profile.key, Reference(e).name))
  }

  function Rows<T(!new)>(e: Entry, timings: Timings<T>, judge: Judge<T>, ghost g: Gates): (rows: seq<Row>)
    requires Planned(e) && ScheduleOk(timings, e) && Fair(judge, g)
    ensures |rows| == |e.variants|
    ensures forall i :: 0 <= i < |rows| ==> FairRow(rows[i], e.variants[i], g)
  {
    seq(|e.variants|, i requires 0 <= i < |e.variants| => RowOf(e, e.variants[i], timings, judge, g))
  }

  /** A profile's winning row beside its reference's. */
  datatype Choice = Choice(profile: Profile, winner: Row, reference: Row)

  /** The first of the qualified rows with the smallest median. */
  ghost predicate Wins(rows: seq<Row>, w: nat) {
    && w < |rows| && rows[w].qualified
    && (forall j :: 0 <= j < |rows| && rows[j].qualified ==> rows[w].median <= rows[j].median)
    && (forall j :: 0 <= j < w && rows[j].qualified ==> rows[w].median < rows[j].median)
  }

  ghost predicate Elected(c: Choice, p: Profile, rows: seq<Row>, ref: nat) {
    && ref < |rows| && c.profile == p && c.reference == rows[ref]
    && exists w: nat :: Wins(rows, w) && c.winner == rows[w]
  }

  ghost predicate Chosen<T(!new)>(c: Choice, e: Entry, timings: Timings<T>, judge: Judge<T>, g: Gates)
    requires Planned(e) && ScheduleOk(timings, e) && Fair(judge, g)
  {
    exists k: nat :: k < |e.variants| && e.variants[k].reference
                  && Elected(c, e.profile, Rows(e, timings, judge, g), k)
  }

  method Best(rows: seq<Row>) returns (w: nat)
    requires exists i :: 0 <= i < |rows| && rows[i].qualified
    ensures Wins(rows, w)
  {
    var best: Option<nat> := None;
    for i := 0 to |rows|
      invariant best.None? ==> forall j :: 0 <= j < i ==> !rows[j].qualified
      invariant best.Some? ==> best.value < i && Wins(rows[..i], best.value)
    {
      if rows[i].qualified && (best.None? || rows[i].median < rows[best.value].median) {
        best := Some(i);
      }
    }
    assert rows[..|rows|] == rows;
    w := best.value;
  }

  /** One profile's rows: refused unless the reference has its anchors and each candidate its trials. */
  method BuildRows<T(!new)>(e: Entry, timings: Timings<T>, judge: Judge<T>, ghost g: Gates)
    returns (r: Result<seq<Row>>)
    requires Planned(e) && Fair(judge, g)
    ensures r.Success? <==> ScheduleOk(timings, e)
    ensures r.Success? ==> r.value == Rows(e, timings, judge, g)
  {
    var reference := Reference(e);
    var anchors := Filed(timings, e.profile.key, reference.name);
    var pairs := ReferenceTrials(anchors);
    if pairs.Failure? {
      assert !RecordsOk(reference, anchors);
      return Failure(pairs.error);
    }
    var rows: seq<Row> := [];
    for i := 0 to |e.variants|
      invariant |rows| == i
      invariant forall j :: 0 <= j < i ==>
                  RecordsOk(e.variants[j], Filed(timings, e.profile.key, e.variants[j].name))
      invariant forall j :: 0 <= j < i ==>
                  judge.requires(e.variants[j], Filed(timings, e.profile.key, e.variants[j].name), anchors)
      invariant forall j :: 0 <= j < i ==>
                  rows[j] == judge(e.variants[j], Filed(timings, e.profile.key, e.variants[j].name), anchors)
    {
      var v := e.variants[i];
      var records := Filed(timings, e.profile.key, v.name);
      if !v.reference && !CandidateOk(records) {
        assert !RecordsOk(v, records);
        return Failure("missing trials");
      }
      assert RecordsOk(v, records);
      rows := rows + [judge(v, records, anchors)];
    }
    assert ScheduleOk(timings, e);
    assert rows == Rows(e, timings, judge, g);
    return Success(rows);
  }

  /** One profile's winner. It always exists: the reference always qualifies. */
  method SelectWinner<T(!new)>(e: Entry, timings: Timings<T>, judge: Judge<T>, ghost g: Gates)
    returns (r: Result<Choice>)
    requires Planned(e) && Fair(judge, g)
    ensures r.Success? <==> ScheduleOk(timings, e)
    ensures r.Success? ==> Chosen(r.value, e, timings, judge, g)
  {
    var built := BuildRows(e, timings, judge, g);
    if built.Failure? {
      return Failure(built.error);
    }
    assert Reference(e) in e.variants;
    var k: nat :| k < |e.variants| && e.variants[k].reference;
    assert FairRow(built.value[k], e.variants[k], g);
    var w := Best(built.value);
    return Success(Choice(e.profile, built.value[w], built.value[k]));
  }

  /** The winner is never slower than the reference, and a candidate that wins has cleared its gates. */
  lemma WinnerCleared<T(!new)>(c: Choice, e: Entry, timings: Timings<T>, judge: Judge<T>, g: Gates)
    requires Planned(e) && ScheduleOk(timings, e) && Fair(judge, g) && Chosen(c, e, timings, judge, g)
    ensures c.profile == e.profile && c.reference == RowOf(e, Reference(e), timings, judge, g)
    ensures 0.0 < c.winner.median <= c.reference.median
    ensures !c.winner.variant.reference ==> Cleared(c.winner, g)
  {
    var rows := Rows(e, timings, judge, g);
    var k: nat :| k < |e.variants| && e.variants[k].reference && Elected(c, e.profile, rows, k);
    var w: nat :| Wins(rows, w) && c.winner == rows[w];
    assert e.variants[k] == Reference(e);
    assert FairRow(rows[k], e.variants[k], g) && FairRow(rows[w], e.variants[w], g);
  }

  /** The choices made so far are those of the first profiles. */
  ghost predicate ElectedSoFar<T(!new)>(results: seq<Choice>, entries: seq<Entry>, timings: Timings<T>,
                                        judge: Judge<T>, g: Gates)
    requires Plan(entries) && Fair(judge, g)
  {
    && |results| <= |entries|
    && forall j :: 0 <= j < |results| ==>
         ScheduleOk(timings, entries[j]) && Chosen(results[j], entries[j], timings, judge, g)
  }

  lemma ElectedNext<T(!new)>(results: seq<Choice>, c: Choice, entries: seq<Entry>, timings: Timings<T>,
                             judge: Judge<T>, g: Gates)
    requires Plan(entries) && Fair(judge, g) && ElectedSoFar(results, entries, timings, judge, g)
    requires |results| < |entries| && ScheduleOk(timings, entries[|results|])
    requires Chosen(c, entries[|results|], timings, judge, g)
    ensures ElectedSoFar(results + [c], entries, timings, judge, g)
  {
  }

  /** Every profile's winner, in order. */
  method SelectWinners<T(!new)>(entries: seq<Entry>, timings: Timings<T>, judge: Judge<T>, g: Gates)
    returns (r: Result<seq<Choice>>)
    requires Plan(entries) && Fair(judge, g)
    ensures r.Success? <==> GatesOk(g) && forall e :: e in entries ==> ScheduleOk(timings, e)
    ensures r.Success? ==> |r.value| == |entries|
    ensures r.Success? ==> forall i :: 0 <= i < |entries| ==> Chosen(r.value[i], entries[i], timings, judge, g)
  {
    if !GatesOk(g) {
      return Failure("invalid selection gates");
    }
    var results: seq<Choice> := [];
    for i := 0 to |entries|
      invariant |results| == i && ElectedSoFar(results, entries, timings, judge, g)
    {
      var choice := SelectWinner(entries[i], timings, judge, g);
      if choice.Failure? {
        assert entries[i] in entries;
        return Failure(choice.error);
      }
      ElectedNext(results, choice.value, entries, timings, judge, g);
      results := results + [choice.value];
    }
    return Success(results);
  }

  // --- the rollup ---------------------------------------------------------

  datatype RollupRow = RollupRow(group: Group, count: nat, reference: real, selected: real, speedup: real,
                                 savings: real, noise: real)

  function WeightedReference(c: Choice): real { c.reference.median * c.profile.occurrences as real }
  function WeightedSelected(c: Choice): real { c.winner.median * c.profile.occurrences as real }
  function WeightedNoise(c: Choice): real { c.winner.noiseFloor * c.profile.occurrences as real }

  lemma WeightingKeepsOrder(c: Choice)
    requires 0.0 < c.winner.median <= c.reference.median
    ensures 0.0 <= WeightedSelected(c) <= WeightedReference(c)
    ensures WeightedSelected(c) > 0.0 <==> c.profile.occurrences > 0
  {
    if c.profile.occurrences > 0 {
      assert WeightedSelected(c) > 0.0;
    } else {
      assert WeightedSelected(c) == 0.0;
    }
  }

  function Sum(f: Choice -> real, s: seq<Choice>): real {
    if s == [] then 0.0 else Sum(f, s[..|s| - 1]) + f(s[|s| - 1])
  }

  function InGroup(s: seq<Choice>, g: Group): seq<Choice> {
    if s == [] then []
    else InGroup(s[..|s| - 1], g) + if s[|s| - 1].profile.group == g then [s[|s| - 1]] else []
  }

  /** The groups in order of first appearance. */
  function Groups(s: seq<Choice>): seq<Group> {
    if s == [] then []
    else
      var before, g := Groups(s[..|s| - 1]), s[|s| - 1].profile.group;
      if g in before then before else before + [g]
  }

  lemma {:induction false} GroupsDistinct(s: seq<Choice>)
    ensures Distinct(Groups(s))
  {
    if s != [] {
      GroupsDistinct(s[..|s| - 1]);
    }
  }

  lemma {:induction false} GroupsCover(s: seq<Choice>)
    ensures forall c :: c in s ==> c.profile.group in Groups(s)
  {
    if s != [] {
      GroupsCover(s[..|s| - 1]);
      assert s == s[..|s| - 1] + [s[|s| - 1]];
    }
  }

  lemma {:induction false} GroupsInhabited(s: seq<Choice>, g: Group)
    ensures g in Groups(s) ==> InGroup(s, g) != []
  {
    if s != [] {
      GroupsInhabited(s[..|s| - 1], g);
    }
  }

  function SumOver(f: Choice -> real, order: seq<Group>, s: seq<Choice>): real {
    if order == [] then 0.0 else Sum(f, InGroup(s, order[0])) + SumOver(f, order[1..], s)
  }

  lemma SumAppend(f: Choice -> real, s: seq<Choice>, c: Choice)
    ensures Sum(f, s + [c]) == Sum(f, s) + f(c)
  {
    assert (s + [c])[..|s|] == s;
  }

  lemma {:induction false} SumOverAppend(f: Choice -> real, order: seq<Group>, s: seq<Choice>, c: Choice)
    requires Distinct(order)
    ensures SumOver(f, order, s + [c])
         == SumOver(f, order, s) + if c.profile.group in order then f(c) else 0.0
  {
    if order != [] {
      SumOverAppend(f, order[1..], s, c);
      assert (s + [c])[..|s|] == s;
      if order[0] == c.profile.group {
        SumAppend(f, InGroup(s, order[0]), c);
      } else {
        assert InGroup(s + [c], order[0]) == InGroup(s, order[0]);
      }
    }
  }

  lemma {:induction false} SumOverNone(f: Choice -> real, order: seq<Group>)
    ensures SumOver(f, order, []) == 0.0
  {
    if order != [] {
      SumOverNone(f, order[1..]);
    }
  }

  /** Grouping neither loses nor repeats a profile: the groups' sums add up to the whole. */
  lemma {:induction false} GroupsConserve(f: Choice -> real, order: seq<Group>, s: seq<Choice>)
    requires Distinct(order) && forall c :: c in s ==> c.profile.group in order
    ensures SumOver(f, order, s) == Sum(f, s)
  {
    if s == [] {
      SumOverNone(f, order);
    } else {
      var init, c := s[..|s| - 1], s[|s| - 1];
      assert s == init + [c];
      GroupsConserve(f, order, init);
      SumOverAppend(f, order, init, c);
    }
  }

  function RowFor(g: Group, group: seq<Choice>): RollupRow
    requires Sum(WeightedSelected, group) != 0.0
  {
    var reference, selected := Sum(WeightedReference, group), Sum(WeightedSelected, group);
    RollupRow(g, |group|, reference, selected, reference / selected, reference - selected,
              Sum(WeightedNoise, group))
  }

  function InsertRow(x: RollupRow, s: seq<RollupRow>): seq<RollupRow> {
    if s == [] then [x] else if s[0].savings <= x.savings then [x] + s else [s[0]] + InsertRow(x, s[1..])
  }

  /** Largest savings first; equal savings keep their order. */
  function SortRows(s: seq<RollupRow>): seq<RollupRow> {
    if s == [] then [] else InsertRow(s[0], SortRows(s[1..]))
  }

  ghost predicate Descending(s: seq<RollupRow>) {
    forall i, j :: 0 <= i < j < |s| ==> s[i].savings >= s[j].savings
  }

  lemma {:induction false} InsertRowAdds(x: RollupRow, s: seq<RollupRow>)
    ensures multiset(InsertRow(x, s)) == multiset(s) + multiset{x}
    ensures forall y :: y in InsertRow(x, s) <==> y == x || y in s
  {
    if s != [] {
      assert s == [s[0]] + s[1..];
      if s[0].savings > x.savings {
        InsertRowAdds(x, s[1..]);
      }
    }
  }

  lemma {:induction false} InsertRowKeepsOrder(x: RollupRow, s: seq<RollupRow>)
    requires Descending(s)
    ensures Descending(InsertRow(x, s))
  {
    if s != [] && s[0].savings > x.savings {
      InsertRowKeepsOrder(x, s[1..]);
      InsertRowAdds(x, s[1..]);
      var rest := InsertRow(x, s[1..]);
      forall j | 0 <= j < |rest|
        ensures s[0].savings >= rest[j].savings
      {
        assert rest[j] in rest;
      }
    }
  }

  lemma {:induction false} SortRowsOrders(s: seq<RollupRow>)
    ensures multiset(SortRows(s)) == multiset(s) && Descending(SortRows(s))
  {
    if s != [] {
      SortRowsOrders(s[1..]);
      InsertRowAdds(s[0], SortRows(s[1..]));
      InsertRowKeepsOrder(s[0], SortRows(s[1..]));
      assert s == [s[0]] + s[1..];
    }
  }

  predicate Divisible(s: seq<Choice>) {
    forall g :: g in Groups(s) ==> Sum(WeightedSelected, InGroup(s, g)) != 0.0
  }

  function RollupOf(s: seq<Choice>): seq<RollupRow>
    requires Divisible(s)
  {
    seq(|Groups(s)|, i requires 0 <= i < |Groups(s)| => RowFor(Groups(s)[i], InGroup(s, Groups(s)[i])))
  }

  method Grouped(results: seq<Choice>) returns (groups: map<Group, seq<Choice>>, order: seq<Group>)
    ensures order == Groups(results)
    ensures forall g :: g in order ==> g in groups && groups[g] == InGroup(results, g)
  {
    groups, order := map[], [];
    for i := 0 to |results|
      invariant order == Groups(results[..i])
      invariant forall g :: g in groups <==> g in order
      invariant forall g :: g in groups ==> groups[g] == InGroup(results[..i], g)
      invariant forall g :: g !in groups ==> InGroup(results[..i], g) == []
    {
      var g := results[i].profile.group;
      assert results[..i + 1][..i] == results[..i];
      InGroupNext(results, i);
      if g in groups {
        groups := groups[g := groups[g] + [results[i]]];
      } else {
        groups, order := groups[g := [results[i]]], order + [g];
      }
    }
    assert results[..|results|] == results;
  }

  lemma InGroupNext(s: seq<Choice>, i: nat)
    requires i < |s|
    ensures forall g :: InGroup(s[..i + 1], g) ==
                        if s[i].profile.group == g then InGroup(s[..i], g) + [s[i]] else InGroup(s[..i], g)
  {
    assert s[..i + 1][..i] == s[..i];
  }

  /** `row` is the row of group `g`, which has a weight to divide by. */
  ghost predicate IsRow(results: seq<Choice>, g: Group, row: RollupRow) {
    Sum(WeightedSelected, InGroup(results, g)) != 0.0 && row == RowFor(g, InGroup(results, g))
  }

  ghost predicate AreRows(results: seq<Choice>, order: seq<Group>, rows: seq<RollupRow>) {
    |rows| <= |order| && forall j :: 0 <= j < |rows| ==> IsRow(results, order[j], rows[j])
  }

  lemma RowsNext(results: seq<Choice>, order: seq<Group>, rows: seq<RollupRow>, row: RollupRow)
    requires AreRows(results, order, rows) && |rows| < |order| && IsRow(results, order[|rows|], row)
    ensures AreRows(results, order, rows + [row])
  {
    var more := rows + [row];
    forall j | 0 <= j < |more|
      ensures IsRow(results, order[j], more[j])
    {
      if j < |rows| {
        assert IsRow(results, order[j], rows[j]);
      }
    }
  }

  lemma RowsComplete(results: seq<Choice>, rows: seq<RollupRow>)
    requires AreRows(results, Groups(results), rows) && |rows| == |Groups(results)|
    ensures Divisible(results) && rows == RollupOf(results)
  {
    forall g | g in Groups(results)
      ensures Sum(WeightedSelected, InGroup(results, g)) != 0.0
    {
      var j :| 0 <= j < |rows| && Groups(results)[j] == g;
      assert IsRow(results, g, rows[j]);
    }
    assert forall j :: 0 <= j < |rows| ==> IsRow(results, Groups(results)[j], rows[j]);
  }

  /** Fails, with a division by zero, exactly when some group has no weight. */
  method RungRollup(results: seq<Choice>) returns (r: Result<seq<RollupRow>>)
    ensures r.Success? <==> Divisible(results)
    ensures r.Success? ==> r.value == SortRows(RollupOf(results))
  {
    var groups, order := Grouped(results);
    var rows: seq<RollupRow> := [];
    for i := 0 to |order|
      invariant |rows| == i && AreRows(results, order, rows)
    {
      var group := groups[order[i]];
      if Sum(WeightedSelected, group) == 0.0 {
        assert order[i] in Groups(results);
        return Failure("division by zero");
      }
      RowsNext(results, order, rows, RowFor(order[i], group));
      rows := rows + [RowFor(order[i], group)];
    }
    RowsComplete(results, rows);
    return Success(SortRows(rows));
  }

  ghost predicate NeverSlower(s: seq<Choice>) {
    forall c :: c in s ==> 0.0 < c.winner.median <= c.reference.median
  }

  /** Every group has a profile that occurs. */
  ghost predicate Weighed(s: seq<Choice>) {
    forall c :: c in s ==> exists d :: d in s && d.profile.group == c.profile.group && d.profile.occurrences > 0
  }

  lemma {:induction false} SumOrdered(s: seq<Choice>)
    requires NeverSlower(s)
    ensures 0.0 <= Sum(WeightedSelected, s) <= Sum(WeightedReference, s)
    ensures Sum(WeightedSelected, s) > 0.0 <==> exists c :: c in s && c.profile.occurrences > 0
  {
    if s != [] {
      var init, c := s[..|s| - 1], s[|s| - 1];
      assert s == init + [c];
      SumOrdered(init);
      WeightingKeepsOrder(c);
    }
  }

  lemma {:induction false} InGroupIs(s: seq<Choice>, g: Group)
    ensures forall c :: c in InGroup(s, g) <==> c in s && c.profile.group == g
  {
    if s != [] {
      assert s == s[..|s| - 1] + [s[|s| - 1]];
      InGroupIs(s[..|s| - 1], g);
    }
  }

  /** The division is defined exactly when every group has a profile that occurs. */
  lemma DivisibleIffWeighed(s: seq<Choice>)
    requires NeverSlower(s)
    ensures Divisible(s) <==> Weighed(s)
  {
    GroupsCover(s);
    forall g
      ensures Sum(WeightedSelected, InGroup(s, g)) != 0.0
         <==> exists d :: d in s && d.profile.group == g && d.profile.occurrences > 0
    {
      InGroupIs(s, g);
      SumOrdered(InGroup(s, g));
    }
    forall g | g in Groups(s)
      ensures exists c :: c in s && c.profile.group == g
    {
      InGroupIs(s, g);
      GroupsInhabited(s, g);
      assert InGroup(s, g)[0] in InGroup(s, g);
    }
  }

  lemma RatioAtLeastOne(a: real, b: real)
    requires 0.0 < b <= a
    ensures a / b >= 1.0
  {
    assert a / b >= b / b;
  }

  /** No group of a rollup is slower than its reference. */
  lemma RollupNeverSlower(s: seq<Choice>)
    requires NeverSlower(s) && Divisible(s)
    ensures forall row :: row in SortRows(RollupOf(s)) ==> row.speedup >= 1.0 && row.savings >= 0.0
    ensures Descending(SortRows(RollupOf(s)))
  {
    forall g | g in Groups(s)
      ensures 0.0 < Sum(WeightedSelected, InGroup(s, g)) <= Sum(WeightedReference, InGroup(s, g))
    {
      InGroupIs(s, g);
      SumOrdered(InGroup(s, g));
    }
    var rows := RollupOf(s);
    SortRowsOrders(rows);
    forall row | row in SortRows(rows)
      ensures row.speedup >= 1.0 && row.savings >= 0.0
    {
      assert row in multiset(rows);
      var i :| 0 <= i < |rows| && rows[i] == row;
      RatioAtLeastOne(row.reference, row.selected);
    }
  }

  function Savings(rows: seq<RollupRow>): real {
    if rows == [] then 0.0 else rows[0].savings + Savings(rows[1..])
  }

  lemma {:induction false} InsertRowSavings(x: RollupRow, s: seq<RollupRow>)
    ensures Savings(InsertRow(x, s)) == x.savings + Savings(s)
  {
    if s != [] && s[0].savings > x.savings {
      InsertRowSavings(x, s[1..]);
    }
  }

  lemma {:induction false} SortRowsSavings(s: seq<RollupRow>)
    ensures Savings(SortRows(s)) == Savings(s)
  {
    if s != [] {
      SortRowsSavings(s[1..]);
      InsertRowSavings(s[0], SortRows(s[1..]));
    }
  }

  lemma {:induction false} SavingsOfRows(rows: seq<RollupRow>, order: seq<Group>, s: seq<Choice>)
    requires |rows| == |order|
    requires forall i :: 0 <= i < |order| ==>
               rows[i].savings ==
                 Sum(WeightedReference, InGroup(s, order[i])) - Sum(WeightedSelected, InGroup(s, order[i]))
    ensures Savings(rows) == SumOver(WeightedReference, order, s) - SumOver(WeightedSelected, order, s)
  {
    if order != [] {
      SavingsOfRows(rows[1..], order[1..], s);
    }
  }

  /** The rollup's savings are the profiles' savings, counted once each. */
  lemma RollupConserves(s: seq<Choice>)
    requires Divisible(s)
    ensures Savings(SortRows(RollupOf(s))) == Sum(WeightedReference, s) - Sum(WeightedSelected, s)
  {
    GroupsDistinct(s);
    GroupsCover(s);
    SavingsOfRows(RollupOf(s), Groups(s), s);
    GroupsConserve(WeightedReference, Groups(s), s);
    GroupsConserve(WeightedSelected, Groups(s), s);
    SortRowsSavings(RollupOf(s));
  }

  /** `at` adds up, choice by choice, what `f` gives for those of group `g`. */
  ghost predicate AddsUp(at: seq<real>, f: Choice -> real, s: seq<Choice>, g: Group) {
    && |at| == |s| + 1 && at[0] == 0.0
    && forall i :: 0 <= i < |s| ==> at[i + 1] == if s[i].profile.group == g then at[i] + f(s[i]) else at[i]
  }

  lemma {:induction false} SumAddsUp(at: seq<real>, f: Choice -> real, s: seq<Choice>, g: Group)
    requires AddsUp(at, f, s, g)
    ensures Sum(f, InGroup(s, g)) == at[|s|]
  {
    if s != [] {
      var n := |s| - 1;
      SumAddsUp(at[..n + 1], f, s[..n], g);
      if s[n].profile.group == g {
        SumAppend(f, InGroup(s[..n], g), s[n]);
      } else {
        assert InGroup(s, g) == InGroup(s[..n], g);
      }
    }
  }

  lemma {:induction false} InGroupCounts(s: seq<Choice>, g: Group)
    ensures |InGroup(s, g)| == |set i | 0 <= i < |s| && s[i].profile.group == g|
  {
    if s != [] {
      var n := |s| - 1;
      InGroupCounts(s[..n], g);
      var before, all := set i | 0 <= i < n && s[..n][i].profile.group == g,
                         set i | 0 <= i < n + 1 && s[i].profile.group == g;
      assert all == before + if s[n].profile.group == g then {n} else {};
    }
  }

  /** What a choice's reference, winner and noise floor weigh by its occurrences. */
  function ReferenceWeight(c: Choice): real { c.profile.occurrences as real * c.reference.median }
  function WinnerWeight(c: Choice): real { c.profile.occurrences as real * c.winner.median }
  function NoiseWeight(c: Choice): real { c.profile.occurrences as real * c.winner.noiseFloor }

  /** How many choices the row counts, its weights, and how much faster that is. */
  ghost predicate HasFigures(row: RollupRow, s: seq<Choice>, reference: real, selected: real, noise: real) {
    && row.count == |set i | 0 <= i < |s| && s[i].profile.group == row.group|
    && row.reference == reference && row.selected == selected && row.noise == noise
    && row.speedup * row.selected == row.reference && row.savings + row.selected == row.reference
  }

  lemma RowIs(s: seq<Choice>, g: Group, reference: seq<real>, selected: seq<real>, noise: seq<real>)
    requires AddsUp(reference, ReferenceWeight, s, g) && AddsUp(selected, WinnerWeight, s, g)
    requires AddsUp(noise, NoiseWeight, s, g) && Sum(WeightedSelected, InGroup(s, g)) != 0.0
    ensures HasFigures(RowFor(g, InGroup(s, g)), s, reference[|s|], selected[|s|], noise[|s|])
  {
    InGroupCounts(s, g);
    Weighs(reference, s, g, WeightedReference, ReferenceWeight);
    Weighs(selected, s, g, WeightedSelected, WinnerWeight);
    Weighs(noise, s, g, WeightedNoise, NoiseWeight);
    RowFigures(s, g, InGroup(s, g), reference[|s|], selected[|s|], noise[|s|]);
  }

  lemma RowFigures(s: seq<Choice>, g: Group, group: seq<Choice>, a: real, b: real, c: real)
    requires Sum(WeightedReference, group) == a && Sum(WeightedSelected, group) == b != 0.0
    requires Sum(WeightedNoise, group) == c && |group| == |set i | 0 <= i < |s| && s[i].profile.group == g|
    ensures HasFigures(RowFor(g, group), s, a, b, c)
  {
    Divided(a, b);
  }

  lemma Divided(a: real, b: real)
    requires b != 0.0
    ensures a / b * b == a
  {
  }

  lemma Weighs(at: seq<real>, s: seq<Choice>, g: Group, f: Choice -> real, f2: Choice -> real)
    requires AddsUp(at, f2, s, g) && forall c :: f(c) == f2(c)
    ensures Sum(f, InGroup(s, g)) == at[|s|]
  {
    SumAddsUp(at, f, s, g);
  }

  lemma RowOfRollup(s: seq<Choice>, row: RollupRow) returns (i: nat)
    requires Divisible(s) && row in SortRows(RollupOf(s))
    ensures i < |Groups(s)| == |RollupOf(s)| && RollupOf(s)[i] == row == RowFor(Groups(s)[i], InGroup(s, Groups(s)[i]))
  {
    var rows := RollupOf(s);
    SortRowsOrders(rows);
    assert row in multiset(rows);
    i :| 0 <= i < |rows| && rows[i] == row;
  }

  /** A row of the rollup counts the choices of its group and adds up what each weighs by its occurrences. */
  lemma RollupRowIs(s: seq<Choice>, row: RollupRow, reference: seq<real>, selected: seq<real>, noise: seq<real>)
    requires Divisible(s) && row in SortRows(RollupOf(s))
    requires AddsUp(reference, ReferenceWeight, s, row.group) && AddsUp(selected, WinnerWeight, s, row.group)
    requires AddsUp(noise, NoiseWeight, s, row.group)
    ensures HasFigures(row, s, reference[|s|], selected[|s|], noise[|s|])
  {
    var i := RowOfRollup(s, row);
    assert Sum(WeightedSelected, InGroup(s, row.group)) != 0.0;
    RowIs(s, row.group, reference, selected, noise);
  }

  /** There is exactly one row for every group that occurs among the choices. */
  lemma RollupGroups(s: seq<Choice>)
    requires Divisible(s)
    ensures forall c :: c in s ==> exists row :: row in SortRows(RollupOf(s)) && row.group == c.profile.group
    ensures forall row :: row in SortRows(RollupOf(s)) ==> exists c :: c in s && c.profile.group == row.group
    ensures forall i, j :: 0 <= i < j < |SortRows(RollupOf(s))| ==>
              SortRows(RollupOf(s))[i].group != SortRows(RollupOf(s))[j].group
  {
    var rows := SortRows(RollupOf(s));
    forall c | c in s
      ensures exists row :: row in rows && row.group == c.profile.group
    {
      RowOfGroup(s, c);
    }
    forall row | row in rows
      ensures exists c :: c in s && c.profile.group == row.group
    {
      var i := RowOfRollup(s, row);
      GroupsInhabited(s, row.group);
      InGroupIs(s, row.group);
      assert InGroup(s, row.group)[0] in InGroup(s, row.group);
    }
    forall i: nat, j: nat | i < j < |rows|
      ensures rows[i].group != rows[j].group
    {
      RowsDiffer(s, i, j);
    }
  }

  lemma RowOfGroup(s: seq<Choice>, c: Choice)
    requires Divisible(s) && c in s
    ensures exists row :: row in SortRows(RollupOf(s)) && row.group == c.profile.group
  {
    var rows := RollupOf(s);
    GroupsCover(s);
    SortRowsOrders(rows);
    var i :| 0 <= i < |Groups(s)| && Groups(s)[i] == c.profile.group;
    assert rows[i] in multiset(rows);
    assert rows[i] in SortRows(rows) && rows[i].group == c.profile.group;
  }

  lemma RowsDiffer(s: seq<Choice>, i: nat, j: nat)
    requires Divisible(s) && i < j < |SortRows(RollupOf(s))|
    ensures SortRows(RollupOf(s))[i].group != SortRows(RollupOf(s))[j].group
  {
    var rows, sorted := RollupOf(s), SortRows(RollupOf(s));
    SortRowsOrders(rows);
    GroupsDistinct(s);
    var a := RowOfRollup(s, sorted[i]);
    var b := RowOfRollup(s, sorted[j]);
    if sorted[i].group == sorted[j].group {
      assert a == b && sorted[i] == sorted[j];
      RepeatMultiplicity(sorted, i, j);
      DistinctRows(s);
      DistinctMultiplicity(rows, sorted[i]);
    }
  }

  lemma DistinctRows(s: seq<Choice>)
    requires Divisible(s)
    ensures Distinct(RollupOf(s))
  {
    GroupsDistinct(s);
    var rows := RollupOf(s);
    assert forall i :: 0 <= i < |rows| ==> rows[i].group == Groups(s)[i];
  }

  datatype Summary = Summary(winners: seq<Choice>, rollup: seq<RollupRow>)

  /** The choice made for a profile carries that profile, and its winner is no slower than its reference. */
  ghost predicate ChosenFor(s: seq<Choice>, entries: seq<Entry>) {
    && |s| == |entries|
    && forall i :: 0 <= i < |s| ==>
         s[i].profile == entries[i].profile && 0.0 < s[i].winner.median <= s[i].reference.median
  }

  /** A profile of the group is planned to occur. */
  ghost predicate Occurs(entries: seq<Entry>, g: Group) {
    exists j :: 0 <= j < |entries| && entries[j].profile.group == g && entries[j].profile.occurrences > 0
  }

  ghost predicate PlanWeighed(entries: seq<Entry>) {
    forall i :: 0 <= i < |entries| ==> Occurs(entries, entries[i].profile.group)
  }

  lemma WeighedIff(s: seq<Choice>, entries: seq<Entry>)
    requires ChosenFor(s, entries)
    ensures NeverSlower(s)
    ensures Weighed(s) <==> PlanWeighed(entries)
  {
    forall g
      ensures Occurs(entries, g) <==> exists d :: d in s && d.profile.group == g && d.profile.occurrences > 0
    {
      OccursIff(s, entries, g);
    }
    forall i | 0 <= i < |s|
      ensures s[i] in s && s[i].profile == entries[i].profile
    {
    }
  }

  lemma OccursIff(s: seq<Choice>, entries: seq<Entry>, g: Group)
    requires ChosenFor(s, entries)
    ensures Occurs(entries, g) <==> exists d :: d in s && d.profile.group == g && d.profile.occurrences > 0
  {
    if Occurs(entries, g) {
      var j :| 0 <= j < |entries| && entries[j].profile.group == g && entries[j].profile.occurrences > 0;
      assert s[j] in s && s[j].profile == entries[j].profile;
    }
    if d :| d in s && d.profile.group == g && d.profile.occurrences > 0 {
      var j :| 0 <= j < |s| && s[j] == d;
      assert s[j].profile == entries[j].profile;
    }
  }

  /** One winner per profile, none slower than its reference; no rollup row slower than the reference;
      and the rows' savings add up to the profiles' savings. */
  ghost predicate SoundSummary(s: Summary, entries: seq<Entry>) {
    && ChosenFor(s.winners, entries) && Divisible(s.winners)
    && s.rollup == SortRows(RollupOf(s.winners)) && Descending(s.rollup)
    && (forall row :: row in s.rollup ==> row.speedup >= 1.0 && row.savings >= 0.0)
    && Savings(s.rollup) == Sum(WeightedReference, s.winners) - Sum(WeightedSelected, s.winners)
  }

  method RollUp(entries: seq<Entry>, winners: seq<Choice>) returns (r: Result<Summary>)
    requires ChosenFor(winners, entries)
    ensures r.Success? <==> PlanWeighed(entries)
    ensures r.Success? ==> r.value.winners == winners && SoundSummary(r.value, entries)
  {
    WeighedIff(winners, entries);
    DivisibleIffWeighed(winners);
    var rollup := RungRollup(winners);
    if rollup.Failure? {
      return Failure(rollup.error);
    }
    RollupNeverSlower(winners);
    RollupConserves(winners);
    return Success(Summary(winners, rollup.value));
  }

  method Summarize<T(!new)>(entries: seq<Entry>, timings: Timings<T>, judge: Judge<T>, g: Gates)
    returns (r: Result<Summary>)
    requires Plan(entries) && Fair(judge, g)
    ensures r.Success? <==>
              GatesOk(g) && PlanWeighed(entries) && forall e :: e in entries ==> ScheduleOk(timings, e)
    ensures r.Success? ==> SoundSummary(r.value, entries)
    ensures r.Success? ==> ElectedSoFar(r.value.winners, entries, timings, judge, g)
  {
    var chosen := SelectWinners(entries, timings, judge, g);
    if chosen.Failure? {
      return Failure(chosen.error);
    }
    forall i | 0 <= i < |entries|
      ensures chosen.value[i].profile == entries[i].profile
      ensures 0.0 < chosen.value[i].winner.median <= chosen.value[i].reference.median
    {
      WinnerCleared(chosen.value[i], entries[i], timings, judge, g);
    }
    r := RollUp(entries, chosen.value);
  }
}
