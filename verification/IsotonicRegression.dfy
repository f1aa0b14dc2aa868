/**
 Pool Adjacent Violators (src/services/confidence-calibrator.ts): the block stack, and the proof that
 the pooled values are the one weighted least-squares best fit among all non-decreasing fits.
 */
module IsotonicRegression {

  datatype Group = Group(rawConfidence: real, value: real, weight: real)
  datatype Block = Block(value: real, weight: real, startIdx: nat, endIdx: nat)

  ghost predicate PositiveWeights(groups: seq<Group>) {
    forall g :: 0 <= g < |groups| ==> groups[g].weight > 0.0
  }

  // ----- sums over groups[lo..hi] -----

  /** Total weight. */
  ghost function Weight(groups: seq<Group>, lo: nat, hi: nat): real
    requires lo <= hi <= |groups|
    decreases hi - lo
  {
    if lo == hi then 0.0 else Weight(groups, lo, hi - 1) + groups[hi - 1].weight
  }

  /** Total weighted value; with weight a sample count and value an accuracy, the number correct. */
  ghost function Mass(groups: seq<Group>, lo: nat, hi: nat): real
    requires lo <= hi <= |groups|
    decreases hi - lo
  {
    if lo == hi then 0.0 else Mass(groups, lo, hi - 1) + groups[hi - 1].value * groups[hi - 1].weight
  }

  /** Weighted squared error of a fit. */
  ghost function Error(groups: seq<Group>, fit: seq<real>, lo: nat, hi: nat): real
    requires lo <= hi <= |groups| == |fit|
    decreases hi - lo
  {
    if lo == hi then 0.0 else Error(groups, fit, lo, hi - 1) + Loss(groups[hi - 1].weight, groups[hi - 1].value, fit[hi - 1])
  }

  ghost function Loss(w: real, x: real, y: real): real {
    w * ((x - y) * (x - y))
  }

  /** Weighted squared distance between two fits. */
  ghost function Distance(groups: seq<Group>, f: seq<real>, g: seq<real>, lo: nat, hi: nat): real
    requires lo <= hi <= |groups| == |f| == |g|
    decreases hi - lo
  {
    if lo == hi then 0.0 else Distance(groups, f, g, lo, hi - 1) + Loss(groups[hi - 1].weight, f[hi - 1], g[hi - 1])
  }

  lemma {:induction false} SumsSplit(groups: seq<Group>, lo: nat, mid: nat, hi: nat)
    requires lo <= mid <= hi <= |groups|
    ensures Weight(groups, lo, hi) == Weight(groups, lo, mid) + Weight(groups, mid, hi)
    ensures Mass(groups, lo, hi) == Mass(groups, lo, mid) + Mass(groups, mid, hi)
    decreases hi
  {
    if mid < hi { SumsSplit(groups, lo, mid, hi - 1); }
  }

  lemma {:induction false} ErrorsSplit(groups: seq<Group>, f: seq<real>, g: seq<real>, lo: nat, mid: nat, hi: nat)
    requires lo <= mid <= hi <= |groups| == |f| == |g|
    ensures Error(groups, f, lo, hi) == Error(groups, f, lo, mid) + Error(groups, f, mid, hi)
    ensures Distance(groups, f, g, lo, hi) == Distance(groups, f, g, lo, mid) + Distance(groups, f, g, mid, hi)
    decreases hi
  {
    if mid < hi { ErrorsSplit(groups, f, g, lo, mid, hi - 1); }
  }

  lemma {:induction false} WeightIsPositive(groups: seq<Group>, lo: nat, hi: nat)
    requires lo <= hi <= |groups| && PositiveWeights(groups)
    ensures Weight(groups, lo, hi) >= 0.0
    ensures lo < hi ==> Weight(groups, lo, hi) > 0.0
    decreases hi - lo
  {
    if lo < hi { WeightIsPositive(groups, lo, hi - 1); }
  }

  // ----- what a pooled block stack is -----

  /** The blocks tile groups[..n]: contiguous, in order, each group in exactly one block. */
  ghost predicate Tiles(blocks: seq<Block>, n: nat) {
    && (n == 0 <==> blocks == [])
    && (blocks != [] ==> blocks[0].startIdx == 0 && blocks[|blocks| - 1].endIdx + 1 == n)
    && (forall i :: 0 <= i < |blocks| ==> blocks[i].startIdx <= blocks[i].endIdx < n)
    && (forall i :: 0 <= i < |blocks| - 1 ==> blocks[i].endIdx + 1 == blocks[i + 1].startIdx)
  }

  /** A block carries the total weight and the weighted mean of its groups. */
  ghost predicate IsMean(groups: seq<Group>, b: Block) {
    && b.startIdx <= b.endIdx < |groups|
    && b.weight == Weight(groups, b.startIdx, b.endIdx + 1)
    && b.weight > 0.0
    && b.value * b.weight == Mass(groups, b.startIdx, b.endIdx + 1)
  }

  /** How far the groups from lo up to p lie, in weighted sum, above the value c. */
  ghost function Surplus(groups: seq<Group>, c: real, lo: nat, p: nat): real
    requires lo <= p <= |groups|
    decreases p - lo
  {
    if lo == p then 0.0 else Surplus(groups, c, lo, p - 1) + Excess(groups[p - 1], c)
  }

  ghost function Excess(g: Group, c: real): real {
    g.weight * (g.value - c)
  }

  lemma {:induction false} SurplusIsMassAbove(groups: seq<Group>, c: real, lo: nat, p: nat)
    requires lo <= p <= |groups|
    ensures Surplus(groups, c, lo, p) == Mass(groups, lo, p) - c * Weight(groups, lo, p)
    decreases p - lo
  {
    if lo < p {
      SurplusIsMassAbove(groups, c, lo, p - 1);
      Distribute(groups[p - 1].weight, groups[p - 1].value, c, Weight(groups, lo, p - 1));
    }
  }

  lemma Distribute(w: real, v: real, c: real, total: real)
    ensures w * (v - c) == v * w - c * w
    ensures c * (total + w) == c * total + c * w
  {
  }

  /** Every prefix of the block has weighted mean at least the block value. */
  ghost predicate PrefixesAbove(groups: seq<Group>, b: Block)
    requires b.startIdx <= b.endIdx < |groups|
  {
    forall p :: b.startIdx <= p <= b.endIdx + 1 ==> Surplus(groups, b.value, b.startIdx, p) >= 0.0
  }

  ghost predicate Sound(groups: seq<Group>, b: Block) {
    IsMean(groups, b) && PrefixesAbove(groups, b)
  }

  ghost predicate Ascending(blocks: seq<Block>) {
    forall i, j :: 0 <= i < j < |blocks| ==> blocks[i].value <= blocks[j].value
  }

  ghost predicate IsPooling(groups: seq<Group>, blocks: seq<Block>) {
    && PositiveWeights(groups)
    && Tiles(blocks, |groups|)
    && (forall i :: 0 <= i < |blocks| ==> Sound(groups, blocks[i]))
    && Ascending(blocks)
  }

  // ----- the algorithm -----

  function PoolTwo(prev: Block, last: Block): Block
    requires prev.weight > 0.0 && last.weight > 0.0
  {
    Block((prev.value * prev.weight + last.value * last.weight) / (prev.weight + last.weight),
          prev.weight + last.weight, prev.startIdx, last.endIdx)
  }

  /** Pooling a violating pair keeps the block invariant: this is why the algorithm is optimal. */
  lemma PoolingKeepsSound(groups: seq<Group>, prev: Block, last: Block)
    requires PositiveWeights(groups)
    requires Sound(groups, prev) && Sound(groups, last)
    requires prev.endIdx + 1 == last.startIdx && prev.value > last.value
    ensures Sound(groups, PoolTwo(prev, last))
  {
    var b := PoolTwo(prev, last);
    PooledIsMean(groups, prev, last);
    MeanHasNoSurplus(groups, b);
    forall p | b.startIdx <= p <= b.endIdx + 1 ensures Surplus(groups, b.value, b.startIdx, p) >= 0.0 {
      if p <= last.startIdx {
        EarlyPrefix(groups, prev, b.value, p);
      } else {
        LatePrefix(groups, b.startIdx, last, b.value, p);
      }
    }
  }

  lemma PooledIsMean(groups: seq<Group>, prev: Block, last: Block)
    requires IsMean(groups, prev) && IsMean(groups, last)
    requires prev.endIdx + 1 == last.startIdx && prev.value > last.value
    ensures IsMean(groups, PoolTwo(prev, last))
    ensures last.value <= PoolTwo(prev, last).value <= prev.value
  {
    SumsSplit(groups, prev.startIdx, last.startIdx, last.endIdx + 1);
    PooledValue(prev.value, prev.weight, last.value, last.weight, PoolTwo(prev, last).value);
  }

  lemma PooledValue(a: real, wa: real, b: real, wb: real, c: real)
    requires wa > 0.0 && wb > 0.0 && a > b
    requires c == (a * wa + b * wb) / (wa + wb)
    ensures c * (wa + wb) == a * wa + b * wb
    ensures b <= c <= a
  {
    QuotientBounds(b, c, a, wa + wb, a * wa + b * wb);
  }

  lemma QuotientBounds(lo: real, q: real, hi: real, d: real, n: real)
    requires d > 0.0 && q == n / d
    requires lo * d <= n <= hi * d
    ensures q * d == n && lo <= q <= hi
  {
  }

  /** A prefix inside the left block: the pooled value is no higher than the left one. */
  lemma EarlyPrefix(groups: seq<Group>, prev: Block, c: real, p: nat)
    requires PositiveWeights(groups) && Sound(groups, prev)
    requires prev.startIdx <= p <= prev.endIdx + 1 && c <= prev.value
    ensures Surplus(groups, c, prev.startIdx, p) >= 0.0
  {
    var s := prev.startIdx;
    assert Surplus(groups, prev.value, s, p) >= 0.0;
    LowerValueRaisesSurplus(groups, c, prev.value, s, p);
  }

  lemma {:induction false} LowerValueRaisesSurplus(groups: seq<Group>, c: real, d: real, lo: nat, p: nat)
    requires lo <= p <= |groups| && PositiveWeights(groups) && c <= d
    ensures Surplus(groups, c, lo, p) >= Surplus(groups, d, lo, p)
    decreases p - lo
  {
    if lo < p {
      LowerValueRaisesSurplus(groups, c, d, lo, p - 1);
      ScaleMonotone(groups[p - 1].value - d, groups[p - 1].value - c, groups[p - 1].weight);
    }
  }

  /** A prefix reaching into the right block: what it leaves of that block lies below the pooled value. */
  lemma LatePrefix(groups: seq<Group>, s: nat, last: Block, c: real, p: nat)
    requires PositiveWeights(groups) && Sound(groups, last)
    requires s <= last.startIdx < p <= last.endIdx + 1 && last.value <= c
    requires Surplus(groups, c, s, last.endIdx + 1) == 0.0
    ensures Surplus(groups, c, s, p) >= 0.0
  {
    var m, e := last.startIdx, last.endIdx + 1;
    SurplusSplits(groups, c, s, p, e);
    LowerValueRaisesSurplus(groups, last.value, c, p, e);
    SurplusSplits(groups, last.value, m, p, e);
    assert Surplus(groups, last.value, m, p) >= 0.0;
    MeanHasNoSurplus(groups, last);
  }

  lemma {:induction false} SurplusSplits(groups: seq<Group>, c: real, lo: nat, mid: nat, hi: nat)
    requires lo <= mid <= hi <= |groups|
    ensures Surplus(groups, c, lo, hi) == Surplus(groups, c, lo, mid) + Surplus(groups, c, mid, hi)
    decreases hi
  {
    if mid < hi { SurplusSplits(groups, c, lo, mid, hi - 1); }
  }

  lemma MeanHasNoSurplus(groups: seq<Group>, b: Block)
    requires IsMean(groups, b)
    ensures Surplus(groups, b.value, b.startIdx, b.endIdx + 1) == 0.0
  {
    SurplusIsMassAbove(groups, b.value, b.startIdx, b.endIdx + 1);
  }

  lemma ScaleMonotone(a: real, b: real, w: real)
    requires a <= b && w >= 0.0
    ensures w * a <= w * b && a * w <= b * w
  {
  }

  /** The block stack: push each group, merge backwards while the last two blocks violate the order. */
  method PoolAdjacentViolators(groups: seq<Group>) returns (blocks: seq<Block>)
    requires PositiveWeights(groups)
    ensures IsPooling(groups, blocks)
  {
    hide Sound;
    blocks := [];
    for g := 0 to |groups|
      invariant Tiles(blocks, g)
      invariant forall i :: 0 <= i < |blocks| ==> Sound(groups, blocks[i])
      invariant Ascending(blocks)
    {
      PushOne(groups, blocks, g);
      blocks := blocks + [Block(groups[g].value, groups[g].weight, g, g)];
      while |blocks| >= 2
        invariant |blocks| >= 1
        invariant Tiles(blocks, g + 1)
        invariant forall i :: 0 <= i < |blocks| ==> Sound(groups, blocks[i])
        invariant Ascending(blocks[..|blocks| - 1])
        decreases |blocks|
      {
        var last := blocks[|blocks| - 1];
        var prev := blocks[|blocks| - 2];
        if prev.value <= last.value { break; }
        MergeBack(groups, blocks, g + 1);
        blocks := blocks[..|blocks| - 2] + [PoolTwo(prev, last)];
      }
      LastInOrder(blocks);
    }
  }

  lemma PushOne(groups: seq<Group>, blocks: seq<Block>, g: nat)
    requires PositiveWeights(groups) && g < |groups| && Tiles(blocks, g) && Ascending(blocks)
    requires forall i :: 0 <= i < |blocks| ==> Sound(groups, blocks[i])
    ensures var pushed := blocks + [Block(groups[g].value, groups[g].weight, g, g)];
            && Tiles(pushed, g + 1)
            && (forall i :: 0 <= i < |pushed| ==> Sound(groups, pushed[i]))
            && Ascending(pushed[..|pushed| - 1])
  {
    hide Sound;
    SingletonIsSound(groups, g);
    assert (blocks + [Block(groups[g].value, groups[g].weight, g, g)])[..|blocks|] == blocks;
  }

  lemma MergeBack(groups: seq<Group>, blocks: seq<Block>, n: nat)
    requires PositiveWeights(groups) && |blocks| >= 2 && Tiles(blocks, n)
    requires forall i :: 0 <= i < |blocks| ==> Sound(groups, blocks[i])
    requires Ascending(blocks[..|blocks| - 1])
    requires blocks[|blocks| - 2].value > blocks[|blocks| - 1].value
    ensures blocks[|blocks| - 2].weight > 0.0 && blocks[|blocks| - 1].weight > 0.0
    ensures var merged := blocks[..|blocks| - 2] + [PoolTwo(blocks[|blocks| - 2], blocks[|blocks| - 1])];
            && Tiles(merged, n)
            && (forall i :: 0 <= i < |merged| ==> Sound(groups, merged[i]))
            && Ascending(merged[..|merged| - 1])
  {
    var init := blocks[..|blocks| - 2];
    var merged := init + [PoolTwo(blocks[|blocks| - 2], blocks[|blocks| - 1])];
    assert blocks[|blocks| - 2].endIdx + 1 == blocks[|blocks| - 2 + 1].startIdx;
    PoolingKeepsSound(groups, blocks[|blocks| - 2], blocks[|blocks| - 1]);
    assert merged[..|merged| - 1] == blocks[..|blocks| - 1][..|blocks| - 2];
  }

  lemma SingletonIsSound(groups: seq<Group>, g: nat)
    requires g < |groups| && PositiveWeights(groups)
    ensures Sound(groups, Block(groups[g].value, groups[g].weight, g, g))
  {
    hide Excess;
    var b := Block(groups[g].value, groups[g].weight, g, g);
    assert Weight(groups, g, g) == 0.0 && Mass(groups, g, g) == 0.0 && Surplus(groups, b.value, g, g) == 0.0;
    assert Weight(groups, g, g + 1) == Weight(groups, g, g) + groups[g].weight;
    assert Mass(groups, g, g + 1) == Mass(groups, g, g) + groups[g].value * groups[g].weight;
    assert Surplus(groups, b.value, g, g + 1) == Surplus(groups, b.value, g, g) + Excess(groups[g], b.value);
    NoExcessOverItself(groups[g]);
    forall p | g <= p <= g + 1 ensures Surplus(groups, b.value, g, p) >= 0.0 {
      assert p == g || p == g + 1;
    }
  }

  lemma NoExcessOverItself(g: Group)
    ensures Excess(g, g.value) == 0.0
  {
  }

  lemma LastInOrder(blocks: seq<Block>)
    requires |blocks| >= 1 && Ascending(blocks[..|blocks| - 1])
    requires |blocks| >= 2 ==> blocks[|blocks| - 2].value <= blocks[|blocks| - 1].value
    ensures Ascending(blocks)
  {
  }

  // ----- the fit the blocks stand for -----

  /** The fitted value of every group: the value of the block it lies in. */
  ghost function Fit(blocks: seq<Block>, n: nat): (fit: seq<real>)
    requires Tiles(blocks, n)
    ensures |fit| == n
    ensures forall i, k :: 0 <= i < |blocks| && blocks[i].startIdx <= k <= blocks[i].endIdx ==> fit[k] == blocks[i].value
    decreases |blocks|
  {
    if blocks == [] then []
    else
      var last := blocks[|blocks| - 1];
      var init := blocks[..|blocks| - 1];
      BlocksInOrder(blocks, n);
      Fit(init, last.startIdx) + seq(n - last.startIdx, _ => last.value)
  }

  lemma BlocksInOrder(blocks: seq<Block>, n: nat)
    requires Tiles(blocks, n)
    ensures forall i, j :: 0 <= i < j < |blocks| ==> blocks[i].endIdx < blocks[j].startIdx
    ensures blocks != [] ==> Tiles(blocks[..|blocks| - 1], blocks[|blocks| - 1].startIdx)
  {
    forall i, j | 0 <= i < j < |blocks| ensures blocks[i].endIdx < blocks[j].startIdx {
      EarlierBlockEndsBefore(blocks, n, i, j);
    }
  }

  lemma {:induction false} EarlierBlockEndsBefore(blocks: seq<Block>, n: nat, i: nat, j: nat)
    requires Tiles(blocks, n) && i < j < |blocks|
    ensures blocks[i].endIdx < blocks[j].startIdx
  {
    if i + 1 < j { EarlierBlockEndsBefore(blocks, n, i, j - 1); assert blocks[j - 1].endIdx + 1 == blocks[j].startIdx; }
  }

  ghost predicate NonDecreasing(f: seq<real>) {
    forall i, j :: 0 <= i < j < |f| ==> f[i] <= f[j]
  }

  /** Every group lies in some block. */
  lemma {:induction false} BlockOf(blocks: seq<Block>, n: nat, k: nat) returns (i: nat)
    requires Tiles(blocks, n) && k < n
    ensures i < |blocks| && blocks[i].startIdx <= k <= blocks[i].endIdx
    decreases |blocks|
  {
    var last := |blocks| - 1;
    if blocks[last].startIdx <= k {
      i := last;
    } else {
      BlocksInOrder(blocks, n);
      i := BlockOf(blocks[..last], blocks[last].startIdx, k);
    }
  }

  lemma FitIsNonDecreasing(groups: seq<Group>, blocks: seq<Block>)
    requires IsPooling(groups, blocks)
    ensures NonDecreasing(Fit(blocks, |groups|))
  {
    var fit := Fit(blocks, |groups|);
    BlocksInOrder(blocks, |groups|);
    forall k, l | 0 <= k < l < |fit| ensures fit[k] <= fit[l] {
      var i := BlockOf(blocks, |groups|, k);
      var j := BlockOf(blocks, |groups|, l);
      assert fit[k] == blocks[i].value && fit[l] == blocks[j].value;
    }
  }

  // ----- least-squares optimality -----

  /** Sum of weight * (value - c) * f, the inner product that summation by parts bounds. */
  ghost function Cross(groups: seq<Group>, c: real, f: seq<real>, lo: nat, p: nat): real
    requires lo <= p <= |groups| == |f|
    decreases p - lo
  {
    if lo == p then 0.0 else Cross(groups, c, f, lo, p - 1) + Excess(groups[p - 1], c) * f[p - 1]
  }

  /** Summation by parts: with non-negative prefix surpluses, a non-decreasing f correlates non-positively. */
  lemma {:induction false} SummationByParts(groups: seq<Group>, c: real, f: seq<real>, lo: nat, p: nat)
    requires lo < p <= |groups| == |f| && NonDecreasing(f)
    requires forall q :: lo <= q <= p ==> Surplus(groups, c, lo, q) >= 0.0
    ensures Cross(groups, c, f, lo, p) <= Surplus(groups, c, lo, p) * f[p - 1]
    decreases p
  {
    var before, step := Surplus(groups, c, lo, p - 1), Excess(groups[p - 1], c);
    if p == lo + 1 {
      ByPartsStep(0.0, 0.0, step, f[p - 1], f[p - 1]);
    } else {
      SummationByParts(groups, c, f, lo, p - 1);
      ByPartsStep(Cross(groups, c, f, lo, p - 1), before, step, f[p - 2], f[p - 1]);
    }
  }

  lemma ByPartsStep(cross: real, before: real, step: real, y: real, x: real)
    requires before >= 0.0 && y <= x && cross <= before * y
    ensures cross + step * x <= (before + step) * x
  {
  }

  /** How the error of a fit relates to the best error, by what separates the two fits. */
  ghost predicate Expands(e: real, best: real, distance: real, c: real, surplus: real, cross: real) {
    e == best + distance + 2.0 * (c * surplus) - 2.0 * cross
  }

  /** Expanding the squares of an arbitrary fit f around a fit that is constantly c on [lo, p). */
  lemma {:induction false} ErrorExpansion(groups: seq<Group>, c: real, fit: seq<real>, f: seq<real>, lo: nat, p: nat)
    requires lo <= p <= |groups| == |f| == |fit|
    requires forall k :: lo <= k < p ==> fit[k] == c
    ensures Expands(Error(groups, f, lo, p), Error(groups, fit, lo, p), Distance(groups, f, fit, lo, p),
                    c, Surplus(groups, c, lo, p), Cross(groups, c, f, lo, p))
    decreases p
  {
    hide Loss, Excess;
    if lo < p {
      hide Expands;
      ErrorExpansion(groups, c, fit, f, lo, p - 1);
      ExpansionStep(Error(groups, f, lo, p - 1), Error(groups, fit, lo, p - 1), Distance(groups, f, fit, lo, p - 1),
                    c, Surplus(groups, c, lo, p - 1), Cross(groups, c, f, lo, p - 1), groups[p - 1], f[p - 1]);
    }
  }

  lemma ExpansionStep(e: real, best: real, distance: real, c: real, surplus: real, cross: real, g: Group, x: real)
    requires Expands(e, best, distance, c, surplus, cross)
    ensures Expands(e + Loss(g.weight, g.value, x), best + Loss(g.weight, g.value, c), distance + Loss(g.weight, x, c),
                    c, surplus + Excess(g, c), cross + Excess(g, c) * x)
  {
    hide Loss, Excess;
    LossExpands(g, c, x);
    Distributed(c, surplus, Excess(g, c));
  }

  lemma Distributed(c: real, a: real, b: real)
    ensures c * (a + b) == c * a + c * b
  {
  }

  /** The square of (value - x), split at c. */
  lemma LossExpands(g: Group, c: real, x: real)
    ensures Loss(g.weight, g.value, x)
            == Loss(g.weight, g.value, c) + Loss(g.weight, x, c) + 2.0 * (c * Excess(g, c)) - 2.0 * (Excess(g, c) * x)
  {
    var w, u, z := g.weight, g.value - c, x - c;
    assert g.value - x == u - z;
    assert (u - z) * (u - z) == u * u + z * z - 2.0 * (u * z);
    WeightedSum(w, u * u, z * z, u * z);
    assert w * (u * z) == w * u * z;
    Distributed(w * u, z, c);
    assert w * u * z == w * u * x - c * (w * u);
  }

  lemma WeightedSum(w: real, a: real, b: real, d: real)
    ensures w * (a + b - 2.0 * d) == w * a + w * b - 2.0 * (w * d)
  {
  }

  lemma CrossIsNotPositive(groups: seq<Group>, c: real, f: seq<real>, lo: nat, hi: nat)
    requires lo < hi <= |groups| == |f| && NonDecreasing(f)
    requires forall q :: lo <= q <= hi ==> Surplus(groups, c, lo, q) >= 0.0
    requires Surplus(groups, c, lo, hi) == 0.0
    ensures Cross(groups, c, f, lo, hi) <= 0.0
  {
    SummationByParts(groups, c, f, lo, hi);
  }

  lemma RangeIsOptimal(groups: seq<Group>, c: real, fit: seq<real>, f: seq<real>, lo: nat, hi: nat)
    requires lo < hi <= |groups| == |f| == |fit| && NonDecreasing(f)
    requires forall k :: lo <= k < hi ==> fit[k] == c
    requires forall q :: lo <= q <= hi ==> Surplus(groups, c, lo, q) >= 0.0
    requires Surplus(groups, c, lo, hi) == 0.0
    ensures Error(groups, f, lo, hi) >= Error(groups, fit, lo, hi) + Distance(groups, f, fit, lo, hi)
  {
    hide Loss, Excess, Expands;
    ErrorExpansion(groups, c, fit, f, lo, hi);
    Balance(Error(groups, f, lo, hi), Error(groups, fit, lo, hi), Distance(groups, f, fit, lo, hi),
            c, Surplus(groups, c, lo, hi), Cross(groups, c, f, lo, hi)) by {
      CrossIsNotPositive(groups, c, f, lo, hi);
    }
  }

  lemma Balance(e: real, best: real, distance: real, c: real, surplus: real, cross: real)
    requires Expands(e, best, distance, c, surplus, cross) && surplus == 0.0 && cross <= 0.0
    ensures e >= best + distance
  {
    assert c * surplus == 0.0;
  }

  lemma BlockIsOptimal(groups: seq<Group>, b: Block, fit: seq<real>, f: seq<real>)
    requires |f| == |groups| == |fit| && NonDecreasing(f) && Sound(groups, b)
    requires forall k :: b.startIdx <= k <= b.endIdx ==> fit[k] == b.value
    ensures Error(groups, f, b.startIdx, b.endIdx + 1)
            >= Error(groups, fit, b.startIdx, b.endIdx + 1) + Distance(groups, f, fit, b.startIdx, b.endIdx + 1)
  {
    MeanHasNoSurplus(groups, b);
    RangeIsOptimal(groups, b.value, fit, f, b.startIdx, b.endIdx + 1);
  }

  lemma {:induction false} BlocksAreOptimal(groups: seq<Group>, blocks: seq<Block>, n: nat, fit: seq<real>, f: seq<real>)
    requires n <= |groups| == |f| == |fit| && NonDecreasing(f) && Tiles(blocks, n)
    requires forall i :: 0 <= i < |blocks| ==> Sound(groups, blocks[i])
    requires forall i, k :: 0 <= i < |blocks| && blocks[i].startIdx <= k <= blocks[i].endIdx ==> fit[k] == blocks[i].value
    ensures Error(groups, f, 0, n) >= Error(groups, fit, 0, n) + Distance(groups, f, fit, 0, n)
    decreases |blocks|
  {
    if blocks != [] {
      var last := blocks[|blocks| - 1];
      BlocksInOrder(blocks, n);
      BlocksAreOptimal(groups, blocks[..|blocks| - 1], last.startIdx, fit, f);
      BlockIsOptimal(groups, last, fit, f);
      ErrorsSplit(groups, f, fit, 0, last.startIdx, n);
      ErrorsSplit(groups, fit, f, 0, last.startIdx, n);
    }
  }

  lemma {:induction false} DistanceIsPositive(groups: seq<Group>, f: seq<real>, g: seq<real>, n: nat)
    requires n <= |groups| == |f| == |g| && PositiveWeights(groups)
    ensures Distance(groups, f, g, 0, n) >= 0.0
    ensures Distance(groups, f, g, 0, n) == 0.0 ==> f[..n] == g[..n]
  {
    if n > 0 {
      DistanceIsPositive(groups, f, g, n - 1);
      WeightedSquare(groups[n - 1].weight, f[n - 1] - g[n - 1]);
      if Distance(groups, f, g, 0, n) == 0.0 {
        assert f[..n] == f[..n - 1] + [f[n - 1]];
        assert g[..n] == g[..n - 1] + [g[n - 1]];
      }
    }
  }

  lemma WeightedSquare(w: real, d: real)
    requires w > 0.0
    ensures w * (d * d) >= 0.0
    ensures w * (d * d) == 0.0 ==> d == 0.0
  {
    Square(d);
    Scaled(w, d * d);
  }

  lemma Square(d: real)
    ensures d * d >= 0.0
    ensures d * d == 0.0 ==> d == 0.0
  {
    if d != 0.0 { assert (d * d) / d == d; }
  }

  lemma Scaled(w: real, q: real)
    requires w > 0.0 && q >= 0.0
    ensures w * q >= 0.0
    ensures w * q == 0.0 ==> q == 0.0
  {
  }

  /**
   The pooled values are a non-decreasing fit, no non-decreasing fit has a smaller weighted squared
   error, and any other one is worse by at least its weighted squared distance; so the best fit is unique.
   */
  lemma PooledFitIsBest(groups: seq<Group>, blocks: seq<Block>, f: seq<real>)
    requires IsPooling(groups, blocks) && |f| == |groups| && NonDecreasing(f)
    ensures NonDecreasing(Fit(blocks, |groups|))
    ensures Error(groups, f, 0, |groups|)
            >= Error(groups, Fit(blocks, |groups|), 0, |groups|) + Distance(groups, f, Fit(blocks, |groups|), 0, |groups|)
    ensures Error(groups, f, 0, |groups|) <= Error(groups, Fit(blocks, |groups|), 0, |groups|) ==> f == Fit(blocks, |groups|)
  {
    var n := |groups|;
    var fit := Fit(blocks, n);
    FitIsNonDecreasing(groups, blocks);
    BlocksAreOptimal(groups, blocks, n, fit, f);
    DistanceIsPositive(groups, f, fit, n);
    assert f[..n] == f && fit[..n] == fit;
  }

  // ----- conservation and range -----

  ghost function BlockWeight(blocks: seq<Block>): real {
    if blocks == [] then 0.0 else BlockWeight(blocks[..|blocks| - 1]) + blocks[|blocks| - 1].weight
  }

  ghost function BlockMass(blocks: seq<Block>): real {
    if blocks == [] then 0.0
    else BlockMass(blocks[..|blocks| - 1]) + blocks[|blocks| - 1].value * blocks[|blocks| - 1].weight
  }

  /** Pooling loses and invents nothing: total weight and total correct count are those of the groups. */
  lemma {:induction false} PoolingConserves(groups: seq<Group>, blocks: seq<Block>, n: nat)
    requires n <= |groups| && Tiles(blocks, n)
    requires forall i :: 0 <= i < |blocks| ==> IsMean(groups, blocks[i])
    ensures BlockWeight(blocks) == Weight(groups, 0, n)
    ensures BlockMass(blocks) == Mass(groups, 0, n)
    decreases |blocks|
  {
    if blocks != [] {
      var last := blocks[|blocks| - 1];
      BlocksInOrder(blocks, n);
      PoolingConserves(groups, blocks[..|blocks| - 1], last.startIdx);
      SumsSplit(groups, 0, last.startIdx, n);
    }
  }

  lemma {:induction false} MassWithinWeight(groups: seq<Group>, lo: nat, hi: nat)
    requires lo <= hi <= |groups| && PositiveWeights(groups)
    requires forall g :: 0 <= g < |groups| ==> 0.0 <= groups[g].value <= 1.0
    ensures 0.0 <= Mass(groups, lo, hi) <= Weight(groups, lo, hi)
    decreases hi - lo
  {
    if lo < hi {
      MassWithinWeight(groups, lo, hi - 1);
      ScaleMonotone(0.0, groups[hi - 1].value, groups[hi - 1].weight);
      ScaleMonotone(groups[hi - 1].value, 1.0, groups[hi - 1].weight);
    }
  }

  /** Averages of accuracies are accuracies. */
  lemma BlockValueInUnit(groups: seq<Group>, b: Block)
    requires PositiveWeights(groups) && IsMean(groups, b)
    requires forall g :: 0 <= g < |groups| ==> 0.0 <= groups[g].value <= 1.0
    ensures 0.0 <= b.value <= 1.0
  {
    MassWithinWeight(groups, b.startIdx, b.endIdx + 1);
    QuotientBounds(0.0, b.value, 1.0, b.weight, b.value * b.weight);
  }
}
