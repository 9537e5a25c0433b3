/**
 * app/api/user-analytics/route.js: the input guard, the radius conversion and the
 * per-type aggregation over the issues the geospatial query found. The query itself is
 * evaluated by the database and is a parameter here.
 */
module UserAnalytics {
  import opened Wrappers
  import opened Http
  import opened Seqs
  import opened IssueModel

  /** The JSON body: `latitude`, `longitude`, `radiusKm`. */
  datatype AnalyticsRequest = AnalyticsRequest(latitude: Option<real>, longitude: Option<real>, radiusKm: Option<real>)

  /** JavaScript truthiness of an optional number: missing and 0 are falsy. */
  predicate NumberTruthy(x: Option<real>)
  {
    x.Some? && x.value != 0.0
  }

  /** The `$centerSphere` query the handler sends: a centre and a radius in metres. */
  datatype GeoQuery = GeoQuery(longitude: real, latitude: real, radiusMeters: real)

  const MetersPerKm: real := 1000.0
  const MsPerHour: real := 3600000.0

  /**
   * The guard and the query it leads to: 400 when latitude, longitude or radiusKm is
   * falsy (so a coordinate of exactly 0 is refused too); otherwise the query centred on
   * the given point with the radius converted to metres.
   */
  function PlanQuery(req: AnalyticsRequest): (r: Reply<GeoQuery>)
    ensures r.Refused? <==> !NumberTruthy(req.latitude) || !NumberTruthy(req.longitude) || !NumberTruthy(req.radiusKm)
    ensures r.Refused? ==> r.status == BAD_REQUEST
    ensures r.Done? ==> r.value.radiusMeters / MetersPerKm == req.radiusKm.value && r.value.radiusMeters != 0.0
    ensures r.Done? ==> r.value.latitude == req.latitude.value && r.value.longitude == req.longitude.value
  {
    if !NumberTruthy(req.latitude) || !NumberTruthy(req.longitude) || !NumberTruthy(req.radiusKm) then
      Refused(BAD_REQUEST, "latitude, longitude, and radiusKm are required")
    else
      Done(OK, GeoQuery(req.longitude.value, req.latitude.value, req.radiusKm.value * MetersPerKm))
  }

  /** `issues.map((i) => i.issueType)`. */
  function TypesOf(found: seq<Issue>): (ts: seq<IssueType>)
    ensures |ts| == |found| && forall i :: 0 <= i < |found| ==> ts[i] == found[i].issueType
  {
    seq(|found|, i requires 0 <= i < |found| => found[i].issueType)
  }

  /** `issues.filter((i) => i.issueType === type).length`. */
  function CountType(found: seq<Issue>, t: IssueType): nat
  {
    if found == [] then 0 else (if found[0].issueType == t then 1 else 0) + CountType(found[1..], t)
  }

  /** `filtered.filter((i) => i.closedOn)`: the issues of type `t` that carry a closing time. */
  function ResolvedOfType(found: seq<Issue>, t: IssueType): (r: seq<Issue>)
    ensures forall i :: 0 <= i < |r| ==> r[i].issueType == t && r[i].closedOn.Some?
    ensures forall i :: 0 <= i < |found| && found[i].issueType == t && found[i].closedOn.Some? ==>
              multiset(r)[found[i]] == multiset(found)[found[i]]
    ensures multiset(r) <= multiset(found)
  {
    var resolved := (i: Issue) => i.issueType == t && i.closedOn.Some?;
    FilterComplete(resolved, found);
    Filter(resolved, found)
  }

  /** The `reduce` that sums `closedOn - createdAt`, in milliseconds. */
  function TotalMs(resolved: seq<Issue>): int
    requires forall i :: 0 <= i < |resolved| ==> resolved[i].closedOn.Some?
  {
    if resolved == [] then 0
    else (resolved[0].closedOn.value - resolved[0].createdAt) + TotalMs(resolved[1..])
  }

  /**
   * The average resolution time of type `t` in hours: 0 when none of its issues is
   * closed, otherwise the mean of `closedOn - createdAt` over the closed ones.
   */
  function MeanHours(found: seq<Issue>, t: IssueType): (h: real)
    ensures ResolvedOfType(found, t) == [] ==> h == 0.0
    ensures ResolvedOfType(found, t) != [] ==> AveragesTo(h, TotalMs(ResolvedOfType(found, t)), |ResolvedOfType(found, t)|)
  {
    var resolved := ResolvedOfType(found, t);
    if resolved == [] then 0.0 else PerItemHours(TotalMs(resolved), |resolved|)
  }

  /** `h` hours per item, over `n` items, make `totalMs` milliseconds. */
  predicate AveragesTo(h: real, totalMs: int, n: nat)
  {
    h * (n as real) * MsPerHour == totalMs as real
  }

  /** A total of `total` milliseconds spread over `n` items, in hours per item. */
  function PerItemHours(total: int, n: nat): (h: real)
    requires n > 0
    ensures AveragesTo(h, total, n)
  {
    MeanTimesCount(total as real, n as real, MsPerHour);
    total as real / (n as real) / MsPerHour
  }

  /** Dividing by `n` and then by `m` is undone by multiplying by both. */
  lemma MeanTimesCount(total: real, n: real, m: real)
    requires n > 0.0 && m > 0.0
    ensures total / n / m * n * m == total
  {
    var q := total / n;
    assert q * n == total;
    assert q / m * m == q;
    assert q / m * n * m == q / m * m * n;
  }

  /**
   * The `forEach` over the distinct types: fills `avgTimePerType` and `issueCounts` with one
   * entry per type present among the found issues.
   */
  method Aggregate(found: seq<Issue>) returns (order: seq<IssueType>, avg: map<IssueType, real>, counts: map<IssueType, nat>)
    ensures order == Distinct(TypesOf(found))
    ensures counts.Keys == avg.Keys
    ensures forall t :: t in counts <==> t in order
    ensures forall t :: t in counts <==> t in TypesOf(found)
    ensures forall t :: t in counts ==> counts[t] == CountType(found, t)
    ensures forall t :: t in avg ==> avg[t] == MeanHours(found, t)
  {
    var types := Distinct(TypesOf(found));
    order, avg, counts := [], map[], map[];
    var k := 0;
    while k < |types|
      invariant 0 <= k <= |types|
      invariant order == types[..k]
      invariant counts.Keys == avg.Keys
      invariant forall t :: t in counts <==> t in types[..k]
      invariant forall t :: t in counts ==> counts[t] == CountType(found, t)
      invariant forall t :: t in avg ==> avg[t] == MeanHours(found, t)
    {
      var t := types[k];
      avg := avg[t := MeanHours(found, t)];
      counts := counts[t := CountType(found, t)];
      order := order + [t];
      k := k + 1;
    }
    assert types[..k] == types;
  }

  /**
   * The JSON the handler answers with: `analytics` and `issueCounts`. Both objects were
   * filled in the same loop, so their keys enumerate in the same insertion order, `order`.
   */
  datatype Analytics = Analytics(order: seq<IssueType>, analytics: map<IssueType, real>, issueCounts: map<IssueType, nat>)

  /**
   * POST /api/user-analytics: the guard, then the aggregation over what the database
   * returns for the query (`nearby`).
   */
  method Post(req: AnalyticsRequest, nearby: GeoQuery -> seq<Issue>) returns (r: Reply<Analytics>)
    ensures PlanQuery(req).Refused? ==> r == Refused(BAD_REQUEST, PlanQuery(req).message)
    ensures PlanQuery(req).Done? ==> r.Done? && r.status == OK
    ensures r.Done? ==>
      var found := nearby(PlanQuery(req).value);
      && r.value.order == Distinct(TypesOf(found))
      && (forall t :: t in r.value.issueCounts <==> t in r.value.order)
      && (forall t :: t in r.value.issueCounts <==> t in TypesOf(found))
      && r.value.analytics.Keys == r.value.issueCounts.Keys
      && (forall t :: t in r.value.issueCounts ==> r.value.issueCounts[t] == CountType(found, t))
      && (forall t :: t in r.value.analytics ==> r.value.analytics[t] == MeanHours(found, t))
  {
    var plan := PlanQuery(req);
    if plan.Refused? {
      return Refused(BAD_REQUEST, plan.message);
    }
    var found := nearby(plan.value);
    var order, avg, counts := Aggregate(found);
    r := Done(OK, Analytics(order, avg, counts));
  }

  /** Every issue type, each once. */
  const AllTypes: seq<IssueType> :=
    [BrokenBenches, FallenTrees, Garbage, LeakyPipes, OpenManhole, Potholes, Streetlight, Others]

  /** The sum of the counts of `types` over `found`. */
  function SumCounts(types: seq<IssueType>, found: seq<Issue>): nat
  {
    if types == [] then 0 else CountType(found, types[0]) + SumCounts(types[1..], found)
  }

  lemma {:induction false} SumCountsPrepend(types: seq<IssueType>, x: Issue, rest: seq<Issue>)
    ensures SumCounts(types, [x] + rest) == multiset(types)[x.issueType] + SumCounts(types, rest)
  {
    if types != [] {
      assert ([x] + rest)[1..] == rest;
      assert types == [types[0]] + types[1..];
      SumCountsPrepend(types[1..], x, rest);
    }
  }

  /** `AllTypes` lists every type exactly once. */
  lemma AllTypesOnce(t: IssueType)
    ensures multiset(AllTypes)[t] == 1
  {
  }

  lemma {:induction false} SumCountsOfNothing(types: seq<IssueType>)
    ensures SumCounts(types, []) == 0
  {
    if types != [] {
      SumCountsOfNothing(types[1..]);
    }
  }

  /** Summed over every type, the per-type counts add up to the number of issues. */
  lemma {:induction false} SumCountsAllTypes(found: seq<Issue>)
    ensures SumCounts(AllTypes, found) == |found|
  {
    if found != [] {
      var x, rest := found[0], found[1..];
      assert found == [x] + rest;
      SumCountsPrepend(AllTypes, x, rest);
      AllTypesOnce(x.issueType);
      SumCountsAllTypes(rest);
      assert SumCounts(AllTypes, [x] + rest) == 1 + |rest|;
    } else {
      SumCountsOfNothing(AllTypes);
    }
  }

  /** A type no found issue has counts zero. */
  lemma {:induction false} CountTypeAbsent(found: seq<Issue>, t: IssueType)
    requires t !in TypesOf(found)
    ensures CountType(found, t) == 0
  {
    if found != [] {
      assert TypesOf(found)[0] == found[0].issueType;
      assert TypesOf(found[1..]) == TypesOf(found)[1..];
      CountTypeAbsent(found[1..], t);
    }
  }

  /** The sum of a count map over `types`, a missing key counting 0. */
  function SumMap(types: seq<IssueType>, counts: map<IssueType, nat>): nat
  {
    if types == [] then 0 else (if types[0] in counts then counts[types[0]] else 0) + SumMap(types[1..], counts)
  }

  /**
   * The `issueCounts` of a response add up to the number of issues the query found: every
   * found issue is counted under exactly one type.
   */
  lemma {:induction false} IssueCountsSumToFound(found: seq<Issue>, counts: map<IssueType, nat>)
    requires forall t :: t in counts <==> t in TypesOf(found)
    requires forall t :: t in counts ==> counts[t] == CountType(found, t)
    ensures SumMap(AllTypes, counts) == |found|
  {
    SumCountsAllTypes(found);
    SumMapIsSumCounts(AllTypes, found, counts);
  }

  lemma {:induction false} SumMapIsSumCounts(types: seq<IssueType>, found: seq<Issue>, counts: map<IssueType, nat>)
    requires forall t :: t in counts <==> t in TypesOf(found)
    requires forall t :: t in counts ==> counts[t] == CountType(found, t)
    ensures SumMap(types, counts) == SumCounts(types, found)
  {
    if types != [] {
      if types[0] !in counts {
        CountTypeAbsent(found, types[0]);
      }
      SumMapIsSumCounts(types[1..], found, counts);
    }
  }
}
