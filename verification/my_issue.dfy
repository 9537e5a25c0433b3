/** The "My Reported Issues" page: the user's points spread evenly over their issues. */
module MyIssuePage {
  import opened IssueModel

  lemma MulMonotone(a: int, b: int, c: nat)
    requires a <= b
    ensures a * c <= b * c
  {
    assert b * c - a * c == (b - a) * c;
  }

  /** For a positive divisor, `/` rounds down: the quotient is the floor of the exact ratio. */
  lemma FloorDivision(total: int, n: nat)
    requires n > 0
    ensures (total / n) * n <= total < (total / n + 1) * n
    ensures total >= 0 ==> 0 <= total / n <= total
  {
    var q, m := total / n, total % n;
    assert total == q * n + m && 0 <= m < n;
    assert (q + 1) * n == q * n + n;
    if total >= 0 {
      if q < 0 {
        MulMonotone(q, -1, n);
        assert false;
      }
      MulMonotone(1, n, q);
      assert q <= n * q;
    }
  }

  /** `Math.floor(totalPoints / n)` when there are issues, and 0 when there are none. */
  function PointsPerIssue(total: int, n: nat): (r: int)
    ensures n == 0 ==> r == 0
    ensures n > 0 ==> r * n <= total < (r + 1) * n
    ensures n > 0 && total >= 0 ==> 0 <= r <= total
  {
    if n > 0 then
      FloorDivision(total, n);
      total / n
    else 0
  }

  /** An issue as the page shows it: every stored field plus its share of the points. */
  datatype ScoredIssue = ScoredIssue(issue: Issue, userPoints: int)

  /** `issues.map((issue) => ({ ...issue, userPoints }))`. */
  function WithUserPoints(issues: seq<Issue>, total: int): (r: seq<ScoredIssue>)
    ensures |r| == |issues|
    ensures forall k :: 0 <= k < |r| ==> r[k].issue == issues[k]
    ensures forall k :: 0 <= k < |r| ==> r[k].userPoints == PointsPerIssue(total, |issues|)
  {
    seq(|issues|, k requires 0 <= k < |issues| => ScoredIssue(issues[k], PointsPerIssue(total, |issues|)))
  }

  /**
   * The two shapes the page may receive: the `/api/my-issues` route answers
   * with a bare array, while the page reads `points` and `issues` members.
   */
  datatype Payload = IssueArray(items: seq<Issue>) | PointsAndIssues(points: int, issues: seq<Issue>)

  /**
   * The fetch effect. Reading `.issues` of a bare array yields `undefined`,
   * whose `.length` throws; the error is caught and the list shown stays as it was.
   */
  function Load(shown: seq<ScoredIssue>, payload: Payload): (r: seq<ScoredIssue>)
    ensures payload.IssueArray? ==> r == shown
    ensures payload.PointsAndIssues? ==>
      && |r| == |payload.issues|
      && forall k :: 0 <= k < |r| ==> r[k] == ScoredIssue(payload.issues[k], PointsPerIssue(payload.points, |payload.issues|))
  {
    match payload
    case IssueArray(_) => shown
    case PointsAndIssues(points, issues) => WithUserPoints(issues, points)
  }
}
