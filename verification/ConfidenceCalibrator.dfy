/**
 The calibrator of src/services/confidence-calibrator.ts: clustering of observations, the fitted curve
 and the piecewise-linear lookup.  Numbers are reals, so rounding and NaN are not modelled.
 */
module ConfidenceCalibrator {
  import opened IsotonicRegression
  import StableSort

  datatype Observation = Observation(rawConfidence: real, isCorrect: bool)
  datatype CalibrationPoint = CalibrationPoint(rawConfidence: real, empiricalAccuracy: real)

  const CLUSTER_SPAN := 0.01

  function ByConfidence(a: Observation, b: Observation): bool {
    a.rawConfidence <= b.rawConfidence
  }

  ghost predicate SortedByConfidence(s: seq<Observation>) {
    forall i, j :: 0 <= i < j < |s| ==> s[i].rawConfidence <= s[j].rawConfidence
  }

  // ----- clustering -----

  function TotalConfidence(s: seq<Observation>): real {
    if s == [] then 0.0 else TotalConfidence(s[..|s| - 1]) + s[|s| - 1].rawConfidence
  }

  function CorrectCount(s: seq<Observation>): (n: nat)
    ensures n <= |s|
  {
    if s == [] then 0 else CorrectCount(s[..|s| - 1]) + (if s[|s| - 1].isCorrect then 1 else 0)
  }

  function Mean(confidence: real, correct: real, count: real): Group
    requires count > 0.0
  {
    Group(confidence / count, correct / count, count)
  }

  function GroupOf(slice: seq<Observation>): Group
    requires slice != []
  {
    Mean(TotalConfidence(slice), CorrectCount(slice) as real, |slice| as real)
  }

  /** The samples from lo up to hi whose answer was correct. */
  ghost function CorrectAmong(s: seq<Observation>, lo: nat, hi: nat): set<nat>
    requires lo <= hi <= |s|
  {
    set i: nat | lo <= i < hi && s[i].isCorrect
  }

  lemma {:induction false} CountsTheCorrect(s: seq<Observation>, lo: nat, hi: nat)
    requires lo <= hi <= |s|
    ensures CorrectCount(s[lo..hi]) == |CorrectAmong(s, lo, hi)|
    decreases hi
  {
    if lo == hi {
      assert CorrectAmong(s, lo, hi) == {};
    } else {
      CountsTheCorrect(s, lo, hi - 1);
      OneMoreCorrect(s, lo, hi);
      hide CorrectAmong, CorrectCount;
    }
  }

  lemma OneMoreCorrect(s: seq<Observation>, lo: nat, hi: nat)
    requires lo < hi <= |s|
    ensures CorrectAmong(s, lo, hi) == CorrectAmong(s, lo, hi - 1) + if s[hi - 1].isCorrect then {hi - 1} else {}
    ensures hi - 1 !in CorrectAmong(s, lo, hi - 1)
    ensures CorrectCount(s[lo..hi]) == CorrectCount(s[lo..hi - 1]) + if s[hi - 1].isCorrect then 1 else 0
  {
    assert s[lo..hi][..hi - lo - 1] == s[lo..hi - 1];
  }

  /** The total of the confidences: of two lists together the sum of both totals, of one sample its confidence. */
  lemma {:induction false} TotalAdds(a: seq<Observation>, b: seq<Observation>, o: Observation)
    ensures TotalConfidence(a + b) == TotalConfidence(a) + TotalConfidence(b)
    ensures TotalConfidence([o]) == o.rawConfidence && TotalConfidence([]) == 0.0
    decreases |b|
  {
    assert [o][..0] == [];
    if b == [] {
      assert a + b == a;
    } else {
      TotalAdds(a, b[..|b| - 1], o);
      assert (a + b)[..|a + b| - 1] == a + b[..|b| - 1];
    }
  }

  /** A group has as many samples as its slice, their mean confidence, and the share of them that was correct. */
  ghost predicate Averages(sorted: seq<Observation>, lo: nat, hi: nat, g: Group) {
    && lo < hi <= |sorted|
    && g.weight == (hi - lo) as real
    && g.rawConfidence * g.weight == TotalConfidence(sorted[lo..hi])
    && g.value * g.weight == |CorrectAmong(sorted, lo, hi)| as real
  }

  /** The slice holds what lies less than 0.01 above its first sample, and the sample behind it does not. */
  ghost predicate WithinSpan(sorted: seq<Observation>, lo: nat, hi: nat) {
    && lo < hi <= |sorted|
    && (forall k :: lo <= k < hi ==> sorted[k].rawConfidence < sorted[lo].rawConfidence + 0.01)
    && (hi < |sorted| ==> sorted[hi].rawConfidence >= sorted[lo].rawConfidence + 0.01)
  }

  lemma GroupAverages(sorted: seq<Observation>, lo: nat, hi: nat)
    requires lo < hi <= |sorted|
    ensures Averages(sorted, lo, hi, GroupOf(sorted[lo..hi]))
  {
    hide CorrectCount, TotalConfidence;
    CountsTheCorrect(sorted, lo, hi);
    var slice := sorted[lo..hi];
    QuotientTimes(TotalConfidence(slice), |slice| as real);
    QuotientTimes(CorrectCount(slice) as real, |slice| as real);
  }

  lemma QuotientTimes(n: real, d: real)
    requires d > 0.0
    ensures (n / d) * d == n
  {
  }

  /** The slice [lo, hi) is one cluster: everything less than 0.01 above its first element, and nothing more. */
  ghost predicate IsCluster(sorted: seq<Observation>, lo: nat, hi: nat) {
    && lo < hi <= |sorted|
    && (forall k :: lo <= k < hi ==> sorted[k].rawConfidence - sorted[lo].rawConfidence < CLUSTER_SPAN)
    && (hi < |sorted| ==> sorted[hi].rawConfidence - sorted[lo].rawConfidence >= CLUSTER_SPAN)
  }

  /** cuts[g]..cuts[g + 1] is the slice behind group g. */
  ghost predicate IsClustering(sorted: seq<Observation>, cuts: seq<nat>, groups: seq<Group>) {
    && |cuts| == |groups| + 1
    && cuts[0] == 0
    && (forall g :: 0 <= g < |groups| ==>
          IsCluster(sorted, cuts[g], cuts[g + 1]) && groups[g] == GroupOf(sorted[cuts[g]..cuts[g + 1]]))
  }

  method Cluster(sorted: seq<Observation>) returns (groups: seq<Group>, ghost cuts: seq<nat>)
    requires SortedByConfidence(sorted)
    ensures IsClustering(sorted, cuts, groups) && cuts[|groups|] == |sorted|
    ensures PositiveWeights(groups) && forall g :: 0 <= g < |groups| ==> 0.0 <= groups[g].value <= 1.0
    ensures forall g, h :: 0 <= g < h < |groups| ==> groups[g].rawConfidence < groups[h].rawConfidence
    ensures groups == [] <==> sorted == []
    ensures forall g :: 0 <= g < |groups| ==> Averages(sorted, cuts[g], cuts[g + 1], groups[g])
    ensures forall g :: 0 <= g < |groups| ==> WithinSpan(sorted, cuts[g], cuts[g + 1])
  {
    groups, cuts := [], [0];
    var i := 0;
    while i < |sorted|
      invariant i <= |sorted|
      invariant IsClustering(sorted, cuts, groups) && cuts[|groups|] == i
    {
      var j := i;
      while j < |sorted| && sorted[j].rawConfidence - sorted[i].rawConfidence < CLUSTER_SPAN
        invariant i <= j <= |sorted|
        invariant forall k :: i <= k < j ==> sorted[k].rawConfidence - sorted[i].rawConfidence < CLUSTER_SPAN
      {
        j := j + 1;
      }
      ClusteringExtends(sorted, cuts, groups, j);
      groups := groups + [GroupOf(sorted[i..j])];
      cuts := cuts + [j];
      i := j;
    }
    ClusteringIsGood(sorted, cuts, groups);
    ClusteringAverages(sorted, cuts, groups);
    assert groups != [] ==> IsCluster(sorted, cuts[0], cuts[0 + 1]);
  }

  lemma ClusteringAverages(sorted: seq<Observation>, cuts: seq<nat>, groups: seq<Group>)
    requires IsClustering(sorted, cuts, groups)
    ensures forall g :: 0 <= g < |groups| ==> Averages(sorted, cuts[g], cuts[g + 1], groups[g])
    ensures forall g :: 0 <= g < |groups| ==> WithinSpan(sorted, cuts[g], cuts[g + 1])
  {
    hide GroupOf, Averages;
    forall g | 0 <= g < |groups| ensures Averages(sorted, cuts[g], cuts[g + 1], groups[g]) {
      assert IsCluster(sorted, cuts[g], cuts[g + 1]);
      GroupAverages(sorted, cuts[g], cuts[g + 1]);
    }
    forall g | 0 <= g < |groups| ensures WithinSpan(sorted, cuts[g], cuts[g + 1]) {
      assert IsCluster(sorted, cuts[g], cuts[g + 1]);
    }
  }

  lemma ClusteringExtends(sorted: seq<Observation>, cuts: seq<nat>, groups: seq<Group>, j: nat)
    requires IsClustering(sorted, cuts, groups) && IsCluster(sorted, cuts[|groups|], j)
    ensures IsClustering(sorted, cuts + [j], groups + [GroupOf(sorted[cuts[|groups|]..j])])
  {
  }

  lemma {:induction false} MeanWithinSlice(slice: seq<Observation>, lo: real, hi: real)
    requires forall k :: 0 <= k < |slice| ==> lo <= slice[k].rawConfidence < hi
    ensures lo * |slice| as real <= TotalConfidence(slice)
    ensures slice != [] ==> TotalConfidence(slice) < hi * |slice| as real
  {
    if slice != [] {
      MeanWithinSlice(slice[..|slice| - 1], lo, hi);
      var n := (|slice| - 1) as real;
      assert |slice| as real == n + 1.0;
      assert lo * (n + 1.0) == lo * n + lo && hi * (n + 1.0) == hi * n + hi;
    }
  }

  /** The confidence of a group lies inside its cluster. */
  lemma GroupWithinCluster(sorted: seq<Observation>, lo: nat, hi: nat)
    requires SortedByConfidence(sorted) && IsCluster(sorted, lo, hi)
    ensures var g := GroupOf(sorted[lo..hi]);
            && sorted[lo].rawConfidence <= g.rawConfidence < sorted[lo].rawConfidence + CLUSTER_SPAN
            && 0.0 <= g.value <= 1.0 && g.weight > 0.0
  {
    var slice := sorted[lo..hi];
    var first := sorted[lo].rawConfidence;
    forall k | 0 <= k < |slice| ensures first <= slice[k].rawConfidence < first + CLUSTER_SPAN {
      assert slice[k] == sorted[lo + k];
    }
    SliceGroupWithin(slice, first, first + CLUSTER_SPAN);
  }

  lemma SliceGroupWithin(slice: seq<Observation>, lo: real, hi: real)
    requires slice != [] && forall k :: 0 <= k < |slice| ==> lo <= slice[k].rawConfidence < hi
    ensures lo <= GroupOf(slice).rawConfidence < hi && 0.0 <= GroupOf(slice).value <= 1.0 && GroupOf(slice).weight > 0.0
  {
    hide TotalConfidence, CorrectCount;
    MeanWithinSlice(slice, lo, hi);
    MeanWithin(TotalConfidence(slice), CorrectCount(slice) as real, |slice| as real, lo, hi);
  }

  lemma MeanWithin(total: real, correct: real, n: real, lo: real, hi: real)
    requires n > 0.0 && lo * n <= total < hi * n && 0.0 <= correct <= n
    ensures var g := Mean(total, correct, n); lo <= g.rawConfidence < hi && 0.0 <= g.value <= 1.0 && g.weight > 0.0
  {
    QuotientWithin(total, n, lo, hi);
    QuotientBounds(0.0, correct / n, 1.0, n, correct);
  }

  lemma QuotientWithin(n: real, d: real, lo: real, hi: real)
    requires d > 0.0 && lo * d <= n < hi * d
    ensures lo <= n / d < hi
  {
  }

  /** Groups ascend strictly in confidence, hold accuracies, and count samples. */
  lemma ClusteringIsGood(sorted: seq<Observation>, cuts: seq<nat>, groups: seq<Group>)
    requires SortedByConfidence(sorted) && IsClustering(sorted, cuts, groups)
    ensures PositiveWeights(groups)
    ensures forall g :: 0 <= g < |groups| ==> 0.0 <= groups[g].value <= 1.0
    ensures forall g, h :: 0 <= g < h < |groups| ==> groups[g].rawConfidence < groups[h].rawConfidence
  {
    forall g | 0 <= g < |groups|
      ensures 0.0 <= groups[g].value <= 1.0 && groups[g].weight > 0.0
    {
      GroupWithinCluster(sorted, cuts[g], cuts[g + 1]);
    }
    forall g, h | 0 <= g < h < |groups| ensures groups[g].rawConfidence < groups[h].rawConfidence {
      GroupWithinCluster(sorted, cuts[g], cuts[g + 1]);
      GroupWithinCluster(sorted, cuts[h], cuts[h + 1]);
      CutsAscend(sorted, cuts, groups, g + 1, h);
    }
  }

  lemma {:induction false} CutsAscend(sorted: seq<Observation>, cuts: seq<nat>, groups: seq<Group>, g: nat, h: nat)
    requires IsClustering(sorted, cuts, groups) && g <= h <= |groups|
    ensures cuts[g] <= cuts[h]
    decreases h
  {
    if g < h {
      CutsAscend(sorted, cuts, groups, g, h - 1);
      assert IsCluster(sorted, cuts[h - 1], cuts[h - 1 + 1]);
    }
  }

  // ----- the curve -----

  /** Strictly ascending in confidence, never descending in accuracy, accuracies in [0, 1]. */
  ghost predicate GoodCurve(curve: seq<CalibrationPoint>) {
    && curve != []
    && (forall i, j :: 0 <= i < j < |curve| ==>
          curve[i].rawConfidence < curve[j].rawConfidence && curve[i].empiricalAccuracy <= curve[j].empiricalAccuracy)
    && (forall i :: 0 <= i < |curve| ==> 0.0 <= curve[i].empiricalAccuracy <= 1.0)
  }

  function PointOf(groups: seq<Group>, b: Block): CalibrationPoint
    requires b.startIdx <= b.endIdx < |groups|
  {
    CalibrationPoint(groups[(b.startIdx + b.endIdx) / 2].rawConfidence, b.value)
  }

  /** The point stands at the middle group of the block, or the earlier of the two in the middle, at the block's value. */
  ghost predicate IsMiddle(groups: seq<Group>, b: Block, point: CalibrationPoint)
    requires b.startIdx <= b.endIdx < |groups|
  {
    && point.empiricalAccuracy == b.value
    && exists m :: b.startIdx <= m <= b.endIdx && m - b.startIdx <= b.endIdx - m <= m - b.startIdx + 1
                   && point.rawConfidence == groups[m].rawConfidence
  }

  lemma PointIsInTheMiddle(groups: seq<Group>, b: Block)
    requires b.startIdx <= b.endIdx < |groups|
    ensures IsMiddle(groups, b, PointOf(groups, b))
  {
    var m := (b.startIdx + b.endIdx) / 2;
    assert m - b.startIdx <= b.endIdx - m <= m - b.startIdx + 1;
  }

  /** Everything the fit went through: sorted input, clusters, pooled blocks, one curve point per block. */
  ghost predicate IsFit(observations: seq<Observation>, sorted: seq<Observation>, cuts: seq<nat>, groups: seq<Group>,
                        blocks: seq<Block>, curve: seq<CalibrationPoint>)
  {
    && multiset(sorted) == multiset(observations)
    && SortedByConfidence(sorted)
    && IsClustering(sorted, cuts, groups) && cuts[|groups|] == |sorted|
    && IsPooling(groups, blocks)
    && |curve| == |blocks|
    && (forall i :: 0 <= i < |blocks| ==> curve[i] == PointOf(groups, blocks[i]))
  }

  method FitIsotonicRegression(sorted: seq<Observation>)
    returns (curve: seq<CalibrationPoint>, ghost cuts: seq<nat>, ghost groups: seq<Group>, ghost blocks: seq<Block>)
    requires SortedByConfidence(sorted)
    ensures IsFit(sorted, sorted, cuts, groups, blocks, curve)
    ensures sorted != [] ==> GoodCurve(curve)
  {
    hide Sound, GroupOf;
    var clustered, bounds := Cluster(sorted);
    var pooled := PoolAdjacentViolators(clustered);
    curve := [];
    for b := 0 to |pooled|
      invariant |curve| == b
      invariant forall i :: 0 <= i < b ==> curve[i] == PointOf(clustered, pooled[i])
    {
      curve := curve + [PointOf(clustered, pooled[b])];
    }
    cuts, groups, blocks := bounds, clustered, pooled;
    if sorted != [] { FittedCurveIsGood(sorted, sorted, cuts, groups, blocks, curve); }
  }

  /** A fit of at least one observation is a curve the lookup can trust. */
  lemma FittedCurveIsGood(observations: seq<Observation>, sorted: seq<Observation>, cuts: seq<nat>, groups: seq<Group>,
                          blocks: seq<Block>, curve: seq<CalibrationPoint>)
    requires IsFit(observations, sorted, cuts, groups, blocks, curve) && observations != []
    ensures GoodCurve(curve)
  {
    hide GroupOf, Surplus;
    assert |multiset(sorted)| == |sorted| == |observations|;
    ClusteringIsGood(sorted, cuts, groups);
    PointsAscend(groups, blocks, curve);
    forall i | 0 <= i < |curve| ensures 0.0 <= curve[i].empiricalAccuracy <= 1.0 {
      assert Sound(groups, blocks[i]);
      BlockValueInUnit(groups, blocks[i]);
    }
  }

  lemma PointsAscend(groups: seq<Group>, blocks: seq<Block>, curve: seq<CalibrationPoint>)
    requires Tiles(blocks, |groups|) && Ascending(blocks) && |curve| == |blocks|
    requires forall g, h :: 0 <= g < h < |groups| ==> groups[g].rawConfidence < groups[h].rawConfidence
    requires forall i :: 0 <= i < |blocks| ==> curve[i] == PointOf(groups, blocks[i])
    ensures forall i, j :: 0 <= i < j < |curve| ==>
              curve[i].rawConfidence < curve[j].rawConfidence && curve[i].empiricalAccuracy <= curve[j].empiricalAccuracy
  {
    BlocksInOrder(blocks, |groups|);
    forall i, j | 0 <= i < j < |curve|
      ensures curve[i].rawConfidence < curve[j].rawConfidence && curve[i].empiricalAccuracy <= curve[j].empiricalAccuracy
    {
      assert blocks[i].endIdx < blocks[j].startIdx;
      assert (blocks[i].startIdx + blocks[i].endIdx) / 2 < (blocks[j].startIdx + blocks[j].endIdx) / 2;
    }
  }

  lemma {:induction false} CorrectCountOfConcat(a: seq<Observation>, b: seq<Observation>)
    ensures CorrectCount(a + b) == CorrectCount(a) + CorrectCount(b)
  {
    if b == [] {
      assert a + b == a;
    } else {
      CorrectCountOfConcat(a, b[..|b| - 1]);
      assert (a + b)[..|a + b| - 1] == a + b[..|b| - 1];
    }
  }

  /** Group g stands for the samples of its slice: as many, and as many correct ones. */
  ghost predicate Represents(sorted: seq<Observation>, lo: nat, hi: nat, group: Group) {
    && lo <= hi <= |sorted|
    && group.weight == (hi - lo) as real
    && group.value * group.weight == CorrectCount(sorted[lo..hi]) as real
  }

  lemma {:induction false} GroupsCountSamples(sorted: seq<Observation>, cuts: seq<nat>, groups: seq<Group>, n: nat)
    requires |cuts| == |groups| + 1 && cuts[0] == 0 && n <= |groups|
    requires forall g :: 0 <= g < |groups| ==> Represents(sorted, cuts[g], cuts[g + 1], groups[g])
    ensures cuts[n] <= |sorted|
    ensures Weight(groups, 0, n) == cuts[n] as real
    ensures Mass(groups, 0, n) == CorrectCount(sorted[..cuts[n]]) as real
  {
    if n > 0 {
      GroupsCountSamples(sorted, cuts, groups, n - 1);
      var lo, hi := cuts[n - 1], cuts[n - 1 + 1];
      assert Represents(sorted, lo, hi, groups[n - 1]);
      CorrectCountOfConcat(sorted[..lo], sorted[lo..hi]);
      assert sorted[..hi] == sorted[..lo] + sorted[lo..hi];
    }
  }

  lemma ClusterRepresents(sorted: seq<Observation>, lo: nat, hi: nat)
    requires lo < hi <= |sorted|
    ensures Represents(sorted, lo, hi, GroupOf(sorted[lo..hi]))
  {
  }

  lemma ClusteringCountsSamples(sorted: seq<Observation>, cuts: seq<nat>, groups: seq<Group>)
    requires IsClustering(sorted, cuts, groups) && cuts[|groups|] == |sorted|
    ensures Weight(groups, 0, |groups|) == |sorted| as real
    ensures Mass(groups, 0, |groups|) == CorrectCount(sorted) as real
  {
    forall g | 0 <= g < |groups| ensures Represents(sorted, cuts[g], cuts[g + 1], groups[g]) {
      ClusterRepresents(sorted, cuts[g], cuts[g + 1]);
    }
    GroupsCountSamples(sorted, cuts, groups, |groups|);
    assert sorted[..|sorted|] == sorted;
  }

  lemma CorrectCountTakenOut(s: seq<Observation>, j: nat)
    requires j < |s|
    ensures CorrectCount(s) == CorrectCount(s[..j] + s[j + 1..]) + (if s[j].isCorrect then 1 else 0)
  {
    hide *;
    PartsOf(s, j);
    CorrectCountOfParts(s[..j], [s[j]], s[j + 1..]);
    CorrectCountOfOne(s[j]);
  }

  lemma PartsOf<T>(s: seq<T>, j: nat)
    requires j < |s|
    ensures s[..j] + [s[j]] + s[j + 1..] == s
  {
  }

  lemma CorrectCountOfParts(a: seq<Observation>, b: seq<Observation>, c: seq<Observation>)
    ensures CorrectCount(a + b + c) == CorrectCount(a + c) + CorrectCount(b)
  {
    hide CorrectCount;
    CorrectCountOfConcat(a + b, c);
    CorrectCountOfConcat(a, b);
    CorrectCountOfConcat(a, c);
  }

  lemma CorrectCountOfOne(o: Observation)
    ensures CorrectCount([o]) == if o.isCorrect then 1 else 0
  {
    assert [o][..0] == [];
  }

  lemma {:induction false} CorrectCountOfPermutation(a: seq<Observation>, b: seq<Observation>)
    requires multiset(a) == multiset(b)
    ensures CorrectCount(a) == CorrectCount(b)
    decreases |a|
  {
    hide CorrectCount;
    assert |multiset(a)| == |a| && |multiset(b)| == |b|;
    if a == [] {
      assert a == b;
    } else {
      var n := |a| - 1;
      StableSort.SameElements(a, b, a[n]);
      var j :| 0 <= j < |b| && b[j] == a[n];
      OneFewer(a, b, n, j);
      CorrectCountOfPermutation(a[..n] + a[n + 1..], b[..j] + b[j + 1..]);
      CorrectCountTakenOut(a, n);
      CorrectCountTakenOut(b, j);
    }
  }

  lemma OneFewer(a: seq<Observation>, b: seq<Observation>, i: nat, j: nat)
    requires i < |a| && j < |b| && a[i] == b[j] && multiset(a) == multiset(b)
    ensures multiset(a[..i] + a[i + 1..]) == multiset(b[..j] + b[j + 1..])
  {
    StableSort.TakenOut(a, i);
    StableSort.TakenOut(b, j);
    StableSort.Cancel(multiset(a[..i] + a[i + 1..]), multiset(b[..j] + b[j + 1..]), a[i]);
  }

  /** The pooled blocks hold as many samples as there are observations, and as many correct ones. */
  lemma FitConserves(observations: seq<Observation>, sorted: seq<Observation>, cuts: seq<nat>, groups: seq<Group>, blocks: seq<Block>,
                     curve: seq<CalibrationPoint>)
    requires IsFit(observations, sorted, cuts, groups, blocks, curve)
    ensures BlockWeight(blocks) == |observations| as real
    ensures BlockMass(blocks) == |CorrectAmong(observations, 0, |observations|)| as real
  {
    hide CorrectCount, GroupOf, CorrectAmong;
    assert |multiset(sorted)| == |sorted| == |observations|;
    ClusteringCountsSamples(sorted, cuts, groups);
    forall i | 0 <= i < |blocks| ensures IsMean(groups, blocks[i]) { assert Sound(groups, blocks[i]); }
    PoolingConserves(groups, blocks, |groups|);
    CorrectCountOfPermutation(sorted, observations);
    CountsTheCorrect(observations, 0, |observations|);
    assert observations[0..|observations|] == observations;
  }

  // ----- the lookup -----

  /** The nearest point of [0, 1]. */
  function Clamp(x: real): (r: real)
    ensures 0.0 <= r <= 1.0
    ensures 0.0 <= x <= 1.0 ==> r == x
    ensures x < 0.0 ==> r == 0.0
    ensures x > 1.0 ==> r == 1.0
  {
    var low := if x <= 1.0 then x else 1.0;
    if low >= 0.0 then low else 0.0
  }

  function Interpolate(lo: CalibrationPoint, hi: CalibrationPoint, x: real): real
    requires lo.rawConfidence < hi.rawConfidence
  {
    lo.empiricalAccuracy
    + ((x - lo.rawConfidence) / (hi.rawConfidence - lo.rawConfidence)) * (hi.empiricalAccuracy - lo.empiricalAccuracy)
  }

  /** x lies between points i and i + 1, and y on the line through them. */
  ghost predicate OnSegment(curve: seq<CalibrationPoint>, i: nat, x: real, y: real)
    requires GoodCurve(curve)
  {
    && i + 1 < |curve|
    && curve[i].rawConfidence <= x <= curve[i + 1].rawConfidence
    && y == Interpolate(curve[i], curve[i + 1], x)
  }

  /** y is the value at x of the piecewise-linear function through the curve, constant beyond its ends. */
  ghost predicate IsValueAt(curve: seq<CalibrationPoint>, x: real, y: real)
    requires GoodCurve(curve)
  {
    if x <= curve[0].rawConfidence then y == curve[0].empiricalAccuracy
    else if x >= curve[|curve| - 1].rawConfidence then y == curve[|curve| - 1].empiricalAccuracy
    else exists i: nat :: OnSegment(curve, i, x, y)
  }

  lemma InterpolateBetween(lo: CalibrationPoint, hi: CalibrationPoint, x: real)
    requires lo.rawConfidence < hi.rawConfidence && lo.empiricalAccuracy <= hi.empiricalAccuracy
    requires lo.rawConfidence <= x <= hi.rawConfidence
    ensures lo.empiricalAccuracy <= Interpolate(lo, hi, x) <= hi.empiricalAccuracy
  {
    var d := hi.rawConfidence - lo.rawConfidence;
    var t := (x - lo.rawConfidence) / d;
    QuotientBounds(0.0, t, 1.0, d, x - lo.rawConfidence);
    Blend(lo.empiricalAccuracy, hi.empiricalAccuracy, t);
  }

  lemma Blend(a: real, b: real, t: real)
    requires a <= b && 0.0 <= t <= 1.0
    ensures a <= a + t * (b - a) <= b
  {
  }

  lemma InterpolateMonotone(lo: CalibrationPoint, hi: CalibrationPoint, x: real, x': real)
    requires lo.rawConfidence < hi.rawConfidence && lo.empiricalAccuracy <= hi.empiricalAccuracy
    requires x <= x'
    ensures Interpolate(lo, hi, x) <= Interpolate(lo, hi, x')
  {
    var d, rise := hi.rawConfidence - lo.rawConfidence, hi.empiricalAccuracy - lo.empiricalAccuracy;
    var t, t' := (x - lo.rawConfidence) / d, (x' - lo.rawConfidence) / d;
    QuotientMonotone(x - lo.rawConfidence, x' - lo.rawConfidence, d);
    ScaleMonotone(t, t', rise);
  }

  lemma QuotientMonotone(a: real, b: real, d: real)
    requires a <= b && d > 0.0
    ensures a / d <= b / d
  {
    var p, q := a / d, b / d;
    assert p * d == a && q * d == b;
    if p > q { ScaleStrictly(q, p, d); }
  }

  lemma ScaleStrictly(a: real, b: real, w: real)
    requires a < b && w > 0.0
    ensures a * w < b * w
  {
    assert (b - a) * w > 0.0;
  }

  lemma SegmentBetween(curve: seq<CalibrationPoint>, i: nat, x: real, y: real)
    requires GoodCurve(curve) && OnSegment(curve, i, x, y)
    ensures curve[i].empiricalAccuracy <= y <= curve[i + 1].empiricalAccuracy
    ensures x == curve[i].rawConfidence ==> y == curve[i].empiricalAccuracy
    ensures x == curve[i + 1].rawConfidence ==> y == curve[i + 1].empiricalAccuracy
  {
    InterpolateBetween(curve[i], curve[i + 1], x);
    JointValue(curve[i], curve[i + 1], x);
  }

  lemma SegmentsMonotone(curve: seq<CalibrationPoint>, i: nat, x: real, y: real, j: nat, x': real, y': real)
    requires GoodCurve(curve) && OnSegment(curve, i, x, y) && OnSegment(curve, j, x', y') && x <= x'
    ensures y <= y'
  {
    hide Interpolate;
    SegmentBetween(curve, i, x, y);
    SegmentBetween(curve, j, x', y');
    if i == j {
      InterpolateMonotone(curve[i], curve[i + 1], x, x');
    } else if j < i {
      // x' is at most the joint and x at least the joint, so the segments meet there
      assert curve[j + 1].rawConfidence <= curve[i].rawConfidence;
    } else {
      assert curve[i + 1].empiricalAccuracy <= curve[j].empiricalAccuracy;
    }
  }

  /** The lookup is monotone: a higher raw confidence never maps to a lower accuracy. */
  lemma LookupIsMonotone(curve: seq<CalibrationPoint>, x: real, y: real, x': real, y': real)
    requires GoodCurve(curve) && IsValueAt(curve, x, y) && IsValueAt(curve, x', y') && x <= x'
    ensures y <= y'
  {
    LookupWithinEnds(curve, x, y);
    LookupWithinEnds(curve, x', y');
    var first, last := curve[0].rawConfidence, curve[|curve| - 1].rawConfidence;
    if first < x < last && first < x' < last {
      var i: nat :| OnSegment(curve, i, x, y);
      var j: nat :| OnSegment(curve, j, x', y');
      SegmentsMonotone(curve, i, x, y, j, x', y');
    }
  }

  lemma JointValue(lo: CalibrationPoint, hi: CalibrationPoint, x: real)
    requires lo.rawConfidence < hi.rawConfidence
    ensures x == lo.rawConfidence ==> Interpolate(lo, hi, x) == lo.empiricalAccuracy
    ensures x == hi.rawConfidence ==> Interpolate(lo, hi, x) == hi.empiricalAccuracy
  {
  }

  lemma LookupWithinEnds(curve: seq<CalibrationPoint>, x: real, y: real)
    requires GoodCurve(curve) && IsValueAt(curve, x, y)
    ensures curve[0].empiricalAccuracy <= y <= curve[|curve| - 1].empiricalAccuracy
  {
    if curve[0].rawConfidence < x < curve[|curve| - 1].rawConfidence {
      var i: nat :| OnSegment(curve, i, x, y);
      SegmentBetween(curve, i, x, y);
    }
  }

  /** y lies on the straight line from point i to the next one. */
  ghost predicate OnTheLine(curve: seq<CalibrationPoint>, i: nat, x: real, y: real)
    requires i + 1 < |curve|
  {
    (y - curve[i].empiricalAccuracy) * (curve[i + 1].rawConfidence - curve[i].rawConfidence)
    == (x - curve[i].rawConfidence) * (curve[i + 1].empiricalAccuracy - curve[i].empiricalAccuracy)
  }

  lemma SegmentIsStraight(curve: seq<CalibrationPoint>, i: nat, x: real, y: real)
    requires GoodCurve(curve) && OnSegment(curve, i, x, y)
    ensures OnTheLine(curve, i, x, y)
  {
    var dx, run, rise := x - curve[i].rawConfidence, curve[i + 1].rawConfidence - curve[i].rawConfidence,
                         curve[i + 1].empiricalAccuracy - curve[i].empiricalAccuracy;
    QuotientTimes(dx, run);
    Exchange(dx / run, rise, run);
  }

  lemma Exchange(a: real, b: real, c: real)
    ensures (a * b) * c == (a * c) * b
  {
  }

  lemma JointOnTheLine(curve: seq<CalibrationPoint>, i: nat, x: real, y: real)
    requires i + 1 < |curve|
    requires (x == curve[i].rawConfidence && y == curve[i].empiricalAccuracy)
             || (x == curve[i + 1].rawConfidence && y == curve[i + 1].empiricalAccuracy)
    ensures OnTheLine(curve, i, x, y)
  {
  }

  /** Between two neighbouring points of the curve the lookup is the straight line through them. */
  lemma LookupIsAffine(curve: seq<CalibrationPoint>, i: nat, x: real, y: real)
    requires GoodCurve(curve) && IsValueAt(curve, x, y) && i + 1 < |curve|
    requires curve[i].rawConfidence <= x <= curve[i + 1].rawConfidence
    ensures OnTheLine(curve, i, x, y)
  {
    hide OnTheLine, Interpolate;
    if x == curve[i].rawConfidence {
      LookupHitsPoints(curve, i, y);
      JointOnTheLine(curve, i, x, y);
    } else if x == curve[i + 1].rawConfidence {
      LookupHitsPoints(curve, i + 1, y);
      JointOnTheLine(curve, i, x, y);
    } else {
      InsideTheEnds(curve, i, x);
      var k: nat :| OnSegment(curve, k, x, y);
      OnlySegment(curve, i, k, x);
      SegmentIsStraight(curve, k, x, y);
    }
  }

  lemma OnlySegment(curve: seq<CalibrationPoint>, i: nat, k: nat, x: real)
    requires GoodCurve(curve) && i + 1 < |curve| && k + 1 < |curve|
    requires curve[i].rawConfidence < x < curve[i + 1].rawConfidence && curve[k].rawConfidence <= x <= curve[k + 1].rawConfidence
    ensures k == i
  {
  }

  lemma InsideTheEnds(curve: seq<CalibrationPoint>, i: nat, x: real)
    requires GoodCurve(curve) && i + 1 < |curve| && curve[i].rawConfidence < x < curve[i + 1].rawConfidence
    ensures curve[0].rawConfidence < x < curve[|curve| - 1].rawConfidence
  {
  }

  /** The lookup passes through every point of the curve. */
  lemma LookupHitsPoints(curve: seq<CalibrationPoint>, i: nat, y: real)
    requires GoodCurve(curve) && i < |curve| && IsValueAt(curve, curve[i].rawConfidence, y)
    ensures y == curve[i].empiricalAccuracy
  {
    if 0 < i < |curve| - 1 {
      var k: nat :| OnSegment(curve, k, curve[i].rawConfidence, y);
      assert !(i < k) && !(k + 1 < i);
      SegmentBetween(curve, k, curve[i].rawConfidence, y);
    }
  }

  /** The value is determined by the curve, however the segment at a joint is chosen. */
  lemma LookupIsAFunction(curve: seq<CalibrationPoint>, x: real, y: real, y': real)
    requires GoodCurve(curve) && IsValueAt(curve, x, y) && IsValueAt(curve, x, y')
    ensures y == y'
  {
    LookupIsMonotone(curve, x, y, x, y');
    LookupIsMonotone(curve, x, y', x, y);
  }

  lemma AlwaysOnTheLine(curve: seq<CalibrationPoint>, x: real, y: real)
    requires GoodCurve(curve) && IsValueAt(curve, x, y)
    ensures forall i: nat :: i + 1 < |curve| && curve[i].rawConfidence <= x <= curve[i + 1].rawConfidence ==> OnTheLine(curve, i, x, y)
  {
    forall i: nat | i + 1 < |curve| && curve[i].rawConfidence <= x <= curve[i + 1].rawConfidence ensures OnTheLine(curve, i, x, y) {
      LookupIsAffine(curve, i, x, y);
    }
  }

  // ----- the service object -----

  class Calibrator {
    var calibrationCurve: seq<CalibrationPoint>
    var isCalibrated: bool

    ghost predicate Valid()
      reads this
    {
      isCalibrated ==> GoodCurve(calibrationCurve)
    }

    constructor ()
      ensures Valid() && !isCalibrated && calibrationCurve == []
    {
      calibrationCurve, isCalibrated := [], false;
    }

    /** Replaces the curve.  With no observations the identity line is stored and the flag stays off. */
    method BuildCalibration(observations: seq<Observation>)
      returns (sampleCount: nat, ghost sorted: seq<Observation>, ghost cuts: seq<nat>, ghost groups: seq<Group>,
               ghost blocks: seq<Block>)
      modifies this
      ensures Valid() && sampleCount == |observations|
      ensures isCalibrated <==> observations != []
      ensures observations == [] ==> calibrationCurve == [CalibrationPoint(0.0, 0.0), CalibrationPoint(1.0, 1.0)]
      ensures observations != [] ==> IsFit(observations, sorted, cuts, groups, blocks, calibrationCurve)
      ensures observations != [] ==> forall i :: 0 <= i < |blocks| ==> IsMiddle(groups, blocks[i], calibrationCurve[i])
      ensures observations != [] ==>
                BlockWeight(blocks) == |observations| as real && BlockMass(blocks) == |CorrectAmong(observations, 0, |observations|)| as real
    {
      hide CorrectAmong, BlockWeight, BlockMass, IsMiddle, PointOf, GroupOf, Sound;
      sampleCount := |observations|;
      sorted, cuts, groups, blocks := [], [], [], [];
      if |observations| == 0 {
        calibrationCurve := [CalibrationPoint(0.0, 0.0), CalibrationPoint(1.0, 1.0)];
        isCalibrated := false;
        return;
      }
      var ordered := StableSort.Sort(observations, ByConfidence);
      StableSort.SortContract(observations, ByConfidence);
      sorted := ordered;
      calibrationCurve, cuts, groups, blocks := FitIsotonicRegression(ordered);
      isCalibrated := true;
      FittedCurveIsGood(observations, sorted, cuts, groups, blocks, calibrationCurve);
      FitConserves(observations, sorted, cuts, groups, blocks, calibrationCurve);
      forall i | 0 <= i < |blocks| ensures IsMiddle(groups, blocks[i], calibrationCurve[i]) { PointIsInTheMiddle(groups, blocks[i]); }
    }

    /** The adjusted score; the search for the surrounding points always succeeds. */
    method AdjustConfidence(rawConfidence: real) returns (r: real)
      requires Valid()
      ensures !isCalibrated ==> r == rawConfidence
      ensures isCalibrated ==> IsValueAt(calibrationCurve, Clamp(rawConfidence), r) && 0.0 <= r <= 1.0
      ensures isCalibrated ==>
                forall i: nat :: i + 1 < |calibrationCurve|
                                 && calibrationCurve[i].rawConfidence <= Clamp(rawConfidence) <= calibrationCurve[i + 1].rawConfidence ==>
                  OnTheLine(calibrationCurve, i, Clamp(rawConfidence), r)
    {
      hide OnTheLine, Interpolate;
      if !isCalibrated || |calibrationCurve| == 0 {
        return rawConfidence;
      }
      var curve := calibrationCurve;
      var clamped := Clamp(rawConfidence);
      if clamped <= curve[0].rawConfidence {
        AlwaysOnTheLine(curve, clamped, curve[0].empiricalAccuracy);
        return curve[0].empiricalAccuracy;
      }
      if clamped >= curve[|curve| - 1].rawConfidence {
        AlwaysOnTheLine(curve, clamped, curve[|curve| - 1].empiricalAccuracy);
        return curve[|curve| - 1].empiricalAccuracy;
      }
      for i := 0 to |curve| - 1
        invariant clamped > curve[i].rawConfidence
      {
        var lo, hi := curve[i], curve[i + 1];
        if clamped >= lo.rawConfidence && clamped <= hi.rawConfidence {
          r := Interpolate(lo, hi, clamped);
          assert OnSegment(curve, i, clamped, r);
          LookupWithinEnds(curve, clamped, r);
          AlwaysOnTheLine(curve, clamped, r);
          return;
        }
      }
      assert false; // the fall-through return of the source is never reached
    }
  }

  /** Adjusted scores of one calibrated curve are ordered as the raw scores are, over all reals. */
  lemma AdjustmentIsMonotone(curve: seq<CalibrationPoint>, raw: real, r: real, raw': real, r': real)
    requires GoodCurve(curve) && raw <= raw'
    requires IsValueAt(curve, Clamp(raw), r) && IsValueAt(curve, Clamp(raw'), r')
    ensures r <= r'
  {
    LookupIsMonotone(curve, Clamp(raw), r, Clamp(raw'), r');
  }
}
