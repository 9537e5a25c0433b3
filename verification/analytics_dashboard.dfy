/** The analytics dashboard: per-status and per-category tallies, stat cards and the category table. */
module AnalyticsDashboard {
  import opened Wrappers
  import opened Seqs
  import opened IssueModel

  /** One bar or slice of a chart: a label and how many issues carry it. */
  datatype Row = Row(name: string, value: nat)

  /** The count a dictionary holds for `k`, reading a missing key as 0 like `acc[k] || 0`. */
  function CountOf(counts: map<string, nat>, k: string): nat
  {
    if k in counts then counts[k] else 0
  }

  /** The total of the counts stored under `keys`. */
  function SumOver(keys: seq<string>, counts: map<string, nat>): nat
  {
    if keys == [] then 0 else SumOver(keys[..|keys| - 1], counts) + CountOf(counts, keys[|keys| - 1])
  }

  lemma {:induction false} SumOverIgnoresOtherKeys(keys: seq<string>, counts: map<string, nat>, l: string, v: nat)
    requires l !in keys
    ensures SumOver(keys, counts[l := v]) == SumOver(keys, counts)
  {
    if keys != [] {
      assert keys[|keys| - 1] != l;
      SumOverIgnoresOtherKeys(keys[..|keys| - 1], counts, l, v);
    }
  }

  lemma {:induction false} SumOverIncrement(keys: seq<string>, counts: map<string, nat>, l: string)
    requires NoDuplicates(keys) && l in keys
    ensures SumOver(keys, counts[l := CountOf(counts, l) + 1]) == SumOver(keys, counts) + 1
  {
    var init := keys[..|keys| - 1];
    assert NoDuplicates(init);
    if keys[|keys| - 1] == l {
      assert l !in init;
      SumOverIgnoresOtherKeys(init, counts, l, CountOf(counts, l) + 1);
    } else {
      assert l in init;
      SumOverIncrement(init, counts, l);
    }
  }

  lemma DistinctSnoc(xs: seq<string>, x: string)
    ensures Distinct(xs + [x]) == if x in Distinct(xs) then Distinct(xs) else Distinct(xs) + [x]
  {
    assert (xs + [x])[..|xs|] == xs;
  }

  /** `counts` holds, for every label in `seen` and no other, its number of occurrences. */
  ghost predicate CountsMatch(counts: map<string, nat>, seen: seq<string>)
  {
    && (forall k :: k in counts <==> k in seen)
    && (forall k :: k in counts ==> counts[k] == multiset(seen)[k])
  }

  /** `keys` lists the labels of `seen` in insertion order, and their counts add up to |seen|. */
  ghost predicate KeysMatch(keys: seq<string>, counts: map<string, nat>, seen: seq<string>)
  {
    keys == Distinct(seen) && SumOver(keys, counts) == |seen|
  }

  /** Counting a label already in the dictionary. */
  lemma CountSeen(counts: map<string, nat>, seen: seq<string>, l: string)
    requires CountsMatch(counts, seen) && l in counts
    ensures CountsMatch(counts[l := counts[l] + 1], seen + [l])
  {
    var counts' := counts[l := counts[l] + 1];
    assert multiset(seen + [l]) == multiset(seen) + multiset{l};
    assert forall k :: k in counts' <==> k in seen + [l];
  }

  lemma KeysSeen(keys: seq<string>, counts: map<string, nat>, seen: seq<string>, l: string)
    requires KeysMatch(keys, counts, seen) && CountsMatch(counts, seen) && l in counts
    ensures KeysMatch(keys, counts[l := counts[l] + 1], seen + [l])
  {
    DistinctSnoc(seen, l);
    assert NoDuplicates(keys);
    SumOverIncrement(keys, counts, l);
  }

  /** Inserting a label not yet in the dictionary. */
  lemma CountNew(counts: map<string, nat>, seen: seq<string>, l: string)
    requires CountsMatch(counts, seen) && l !in counts
    ensures CountsMatch(counts[l := 1], seen + [l])
  {
    var counts' := counts[l := 1];
    assert multiset(seen + [l]) == multiset(seen) + multiset{l};
    assert multiset(seen)[l] == 0;
    assert forall k :: k in counts' <==> k in seen + [l];
  }

  lemma SumOverAppendNew(keys: seq<string>, counts: map<string, nat>, l: string)
    requires l !in keys
    ensures SumOver(keys + [l], counts[l := 1]) == SumOver(keys, counts) + 1
  {
    SumOverIgnoresOtherKeys(keys, counts, l, 1);
    assert (keys + [l])[..|keys|] == keys;
  }

  lemma KeysNew(keys: seq<string>, counts: map<string, nat>, seen: seq<string>, l: string)
    requires KeysMatch(keys, counts, seen) && CountsMatch(counts, seen) && l !in counts
    ensures KeysMatch(keys + [l], counts[l := 1], seen + [l])
  {
    DistinctSnoc(seen, l);
    SumOverAppendNew(keys, counts, l);
  }

  /** The state of the tally after the labels `seen`. */
  ghost predicate Tallied(keys: seq<string>, counts: map<string, nat>, seen: seq<string>)
  {
    CountsMatch(counts, seen) && KeysMatch(keys, counts, seen)
  }

  /** One step of the tally keeps its state in step with the labels read so far. */
  lemma TallyStep(keys: seq<string>, counts: map<string, nat>, seen: seq<string>, l: string)
    requires Tallied(keys, counts, seen)
    ensures l in counts ==> Tallied(keys, counts[l := counts[l] + 1], seen + [l])
    ensures l !in counts ==> Tallied(keys + [l], counts[l := 1], seen + [l])
  {
    if l in counts {
      CountSeen(counts, seen, l);
      KeysSeen(keys, counts, seen, l);
    } else {
      CountNew(counts, seen, l);
      KeysNew(keys, counts, seen, l);
    }
  }

  /**
   * `labels.reduce((acc, k) => { acc[k] = (acc[k] || 0) + 1; return acc; }, {})`,
   * returned together with `Object.keys(acc)`, which lists the labels in the
   * order they were first inserted.
   */
  method Tally(labels: seq<string>) returns (keys: seq<string>, counts: map<string, nat>)
    ensures keys == Distinct(labels)
    ensures forall k :: k in counts <==> k in labels
    ensures forall k :: k in counts ==> counts[k] == multiset(labels)[k]
    ensures SumOver(keys, counts) == |labels|
  {
    keys := [];
    counts := map[];
    ghost var seen: seq<string> := [];
    var i := 0;
    while i < |labels|
      invariant 0 <= i <= |labels| && seen == labels[..i]
      invariant Tallied(keys, counts, seen)
    {
      var l := labels[i];
      TallyStep(keys, counts, seen, l);
      if l in counts {
        counts := counts[l := counts[l] + 1];
      } else {
        keys := keys + [l];
        counts := counts[l := 1];
      }
      seen := seen + [l];
      i := i + 1;
      assert seen == labels[..i];
    }
    assert seen == labels;
  }

  /** `Object.keys(acc).map((k) => ({ name: k, value: acc[k] }))`. */
  function Rows(keys: seq<string>, counts: map<string, nat>): (r: seq<Row>)
    ensures |r| == |keys|
    ensures forall k :: 0 <= k < |r| ==> r[k] == Row(keys[k], CountOf(counts, keys[k]))
  {
    seq(|keys|, k requires 0 <= k < |keys| => Row(keys[k], CountOf(counts, keys[k])))
  }

  function Total(rows: seq<Row>): nat
  {
    if rows == [] then 0 else Total(rows[..|rows| - 1]) + rows[|rows| - 1].value
  }

  lemma {:induction false} TotalOfRows(keys: seq<string>, counts: map<string, nat>)
    ensures Total(Rows(keys, counts)) == SumOver(keys, counts)
  {
    if keys != [] {
      var init := keys[..|keys| - 1];
      TotalOfRows(init, counts);
      assert Rows(keys, counts)[..|keys| - 1] == Rows(init, counts);
    }
  }

  /**
   * `rows` is the chart data tallied from `labels`: one row per distinct
   * label, in order of first occurrence, each with its number of occurrences.
   */
  ghost predicate TalliedFrom(rows: seq<Row>, labels: seq<string>)
  {
    var names := Distinct(labels);
    && |rows| == |names|
    && (forall k :: 0 <= k < |rows| ==> rows[k] == Row(names[k], multiset(labels)[names[k]]))
    && Total(rows) == |labels|
  }

  /** Tallies `labels` and turns the dictionary into chart rows. */
  method ChartRows(labels: seq<string>) returns (rows: seq<Row>)
    ensures TalliedFrom(rows, labels)
  {
    var keys, counts := Tally(labels);
    rows := Rows(keys, counts);
    TotalOfRows(keys, counts);
    forall k | 0 <= k < |rows|
      ensures rows[k] == Row(keys[k], multiset(labels)[keys[k]])
    {
      assert keys[k] in labels;
    }
  }

  /** `issue.status` of every issue, in list order. */
  function StatusLabels(issues: seq<Issue>): (r: seq<string>)
    ensures |r| == |issues|
    ensures forall k :: 0 <= k < |r| ==> r[k] == StatusName(issues[k].status)
  {
    seq(|issues|, k requires 0 <= k < |issues| => StatusName(issues[k].status))
  }

  /** `v || "Other"`: an absent or empty label falls into the "Other" bucket. */
  function OrOther(v: Option<string>): (r: string)
    ensures !Truthy(v) ==> r == "Other"
    ensures Truthy(v) ==> r == v.value
  {
    if Truthy(v) then v.value else "Other"
  }

  /** `issue.issueType || "Other"` of every issue. */
  function CategoryLabels(issues: seq<Issue>): (r: seq<string>)
    ensures |r| == |issues|
    ensures forall k :: 0 <= k < |r| ==> r[k] == TypeName(issues[k].issueType)
  {
    seq(|issues|, k requires 0 <= k < |issues| => OrOther(Some(TypeName(issues[k].issueType))))
  }

  /** `issue.category || "Other"`: issues have no `category`, so every label is "Other". */
  function LegacyCategoryLabels(issues: seq<Issue>): (r: seq<string>)
    ensures r == seq(|issues|, _ => "Other")
  {
    seq(|issues|, _ => OrOther(None))
  }

  /**
   * The effect keyed on the issue list and the interval: with no issues every
   * chart is emptied; otherwise the status chart is tallied by status and the
   * category chart by the missing `category` member.
   */
  method ChartsEffect(issues: seq<Issue>) returns (statusData: seq<Row>, categoryData: seq<Row>)
    ensures issues == [] ==> statusData == [] && categoryData == []
    ensures issues != [] ==> TalliedFrom(statusData, StatusLabels(issues))
    ensures issues != [] ==> TalliedFrom(categoryData, LegacyCategoryLabels(issues))
  {
    if |issues| == 0 {
      return [], [];
    }
    statusData := ChartRows(StatusLabels(issues));
    categoryData := ChartRows(LegacyCategoryLabels(issues));
  }

  lemma {:induction false} DistinctOfConstant(xs: seq<string>, c: string)
    requires xs != [] && forall k :: 0 <= k < |xs| ==> xs[k] == c
    ensures Distinct(xs) == [c]
  {
    var init := xs[..|xs| - 1];
    if init != [] {
      DistinctOfConstant(init, c);
    }
  }

  /** The first effect's category chart is a single "Other" slice holding every issue. */
  lemma LegacyCategoriesAreAllOther(rows: seq<Row>, issues: seq<Issue>)
    requires issues != [] && TalliedFrom(rows, LegacyCategoryLabels(issues))
    ensures rows == [Row("Other", |issues|)]
  {
    var labels := LegacyCategoryLabels(issues);
    DistinctOfConstant(labels, "Other");
    assert rows[..0] == [];
    assert rows[0].value == Total(rows);
  }

  /** The effect keyed on the issue list alone: it re-tallies categories by `issueType` when there are issues. */
  method CategoryEffect(issues: seq<Issue>, categoryData: seq<Row>) returns (r: seq<Row>)
    ensures issues == [] ==> r == categoryData
    ensures issues != [] ==> TalliedFrom(r, CategoryLabels(issues))
  {
    if |issues| > 0 {
      r := ChartRows(CategoryLabels(issues));
    } else {
      r := categoryData;
    }
  }

  /**
   * Both effects after the issue list changes, in declaration order: the
   * category chart shown is the tally by issue type, and an empty list leaves
   * both charts empty.
   */
  method OnIssuesChanged(issues: seq<Issue>) returns (statusData: seq<Row>, categoryData: seq<Row>)
    ensures issues == [] ==> statusData == [] && categoryData == []
    ensures issues != [] ==> TalliedFrom(statusData, StatusLabels(issues))
    ensures issues != [] ==> TalliedFrom(categoryData, CategoryLabels(issues))
  {
    var legacy;
    statusData, legacy := ChartsEffect(issues);
    categoryData := CategoryEffect(issues, legacy);
  }

  /** The "Open" stat card: issues whose status is "open". */
  function OpenIssues(issues: seq<Issue>): nat
  {
    CountIf((i: Issue) => StatusName(i.status) == "open", issues)
  }

  /** The "Closed" stat card: issues whose status is "resolved". */
  function ClosedIssues(issues: seq<Issue>): nat
  {
    CountIf((i: Issue) => StatusName(i.status) == "resolved", issues)
  }

  /** The open and closed cards never add up to more than the total card. */
  lemma {:induction false} OpenAndClosedWithinTotal(issues: seq<Issue>)
    ensures OpenIssues(issues) + ClosedIssues(issues) <= |issues|
  {
    if issues != [] {
      OpenAndClosedWithinTotal(issues[1..]);
    }
  }

  function RowValue(row: Row): int
  {
    row.value
  }

  /**
   * The category table: `categoryData.sort((a, b) => b.value - a.value)`. The sort is
   * stable, so rows with the same count keep their order in `categoryData`.
   */
  function CategoryTable(categoryData: seq<Row>): (r: seq<Row>)
    ensures SortedDesc(r, RowValue)
    ensures multiset(r) == multiset(categoryData)
    ensures forall v :: WithKey(r, RowValue, v) == WithKey(categoryData, RowValue, v)
  {
    SortDescIsStable(categoryData, RowValue);
    SortDesc(categoryData, RowValue)
  }

  /** Two categories with the same count stay in first-seen order. */
  lemma TiedCategoriesKeepTheirOrder(a: string, b: string, n: nat)
    ensures CategoryTable([Row(a, n), Row(b, n)]) == [Row(a, n), Row(b, n)]
  {
    var rows := [Row(a, n), Row(b, n)];
    var r := CategoryTable(rows);
    WithKeyOfUniform(rows, RowValue, n);
    forall i | 0 <= i < |r|
      ensures RowValue(r[i]) == n
    {
      assert r[i] in multiset(rows);
    }
    WithKeyOfUniform(r, RowValue, n);
  }
}
