/**
 Selection and splicing of src/middleware/pii-masker.ts.  What the patterns match is an input: a list of
 candidates, each a non-empty range of the text with the matched characters.
 */
module PiiMasker {
  import opened StableSort

  datatype Candidate = Candidate(kind: string, original: string, replacement: string, start: nat, end: nat, priority: int)

  function Length(c: Candidate): int {
    c.end - c.start
  }

  /** Higher priority first, then the longer match, then the earlier one. */
  predicate RanksBefore(a: Candidate, b: Candidate) {
    if a.priority != b.priority then a.priority > b.priority
    else if Length(a) != Length(b) then Length(a) > Length(b)
    else a.start <= b.start
  }

  predicate StartsBefore(a: Candidate, b: Candidate) {
    a.start <= b.start
  }

  predicate RangesOverlap(startA: int, endA: int, startB: int, endB: int) {
    startA < endB && startB < endA
  }

  predicate Overlap(a: Candidate, b: Candidate) {
    RangesOverlap(a.start, a.end, b.start, b.end)
  }

  predicate Free(selected: seq<Candidate>, c: Candidate) {
    forall k :: 0 <= k < |selected| ==> !Overlap(c, selected[k])
  }

  // ----- greedy selection -----

  /** The candidates kept when they are taken in order and overlapping ones are refused. */
  function Greedy(s: seq<Candidate>): seq<Candidate> {
    if s == [] then []
    else
      var kept, c := Greedy(s[..|s| - 1]), s[|s| - 1];
      if Free(kept, c) then kept + [c] else kept
  }

  function Selection(candidates: seq<Candidate>): seq<Candidate> {
    Sort(Greedy(Sort(candidates, RanksBefore)), StartsBefore)
  }

  method Select(candidates: seq<Candidate>) returns (selected: seq<Candidate>)
    ensures selected == Selection(candidates)
  {
    var prioritized := Sort(candidates, RanksBefore);
    selected := [];
    for i := 0 to |prioritized|
      invariant selected == Greedy(prioritized[..i])
    {
      var candidate := prioritized[i];
      var overlaps := false;
      for k := 0 to |selected|
        invariant overlaps <==> exists m :: 0 <= m < k && Overlap(candidate, selected[m])
      {
        if Overlap(candidate, selected[k]) { overlaps := true; }
      }
      assert prioritized[..i + 1][..i] == prioritized[..i];
      if !overlaps {
        selected := selected + [candidate];
      }
    }
    assert prioritized[..|prioritized|] == prioritized;
    selected := Sort(selected, StartsBefore);
  }

  ghost predicate Disjoint(s: seq<Candidate>) {
    forall i, j :: 0 <= i < j < |s| ==> !Overlap(s[i], s[j]) && !Overlap(s[j], s[i])
  }

  lemma {:induction false} GreedyIsDisjoint(s: seq<Candidate>)
    ensures Disjoint(Greedy(s))
    ensures forall c :: c in Greedy(s) ==> c in s
  {
    if s != [] { GreedyIsDisjoint(s[..|s| - 1]); }
  }

  /** A candidate that is not kept overlaps a kept one that came no later. */
  lemma {:induction false} GreedyRefusesForAReason(s: seq<Candidate>, i: nat) returns (k: nat)
    requires i < |s|
    ensures k <= i && s[k] in Greedy(s)
    ensures s[i] in Greedy(s) || Overlap(s[i], s[k])
  {
    var n := |s| - 1;
    if i < n {
      k := GreedyRefusesForAReason(s[..n], i);
    } else {
      var kept := Greedy(s[..n]);
      if Free(kept, s[n]) {
        k := n;
      } else {
        var m :| 0 <= m < |kept| && Overlap(s[n], kept[m]);
        GreedyIsDisjoint(s[..n]);
        assert kept[m] in s[..n];
        k :| 0 <= k < n && s[..n][k] == kept[m];
      }
    }
  }

  lemma RankingIsATotalPreorder()
    ensures TotalPreorder(RanksBefore) && TotalPreorder(StartsBefore)
  {
  }

  lemma SelectionFacts(candidates: seq<Candidate>)
    ensures Ordered(Sort(candidates, RanksBefore), RanksBefore)
    ensures Ordered(Selection(candidates), StartsBefore)
    ensures Disjoint(Selection(candidates))
    ensures forall c :: c in Sort(candidates, RanksBefore) <==> c in candidates
    ensures forall c :: c in Selection(candidates) <==> c in Greedy(Sort(candidates, RanksBefore))
    ensures forall c :: c in Selection(candidates) ==> c in candidates
  {
    RankingIsATotalPreorder();
    var ranked := Sort(candidates, RanksBefore);
    var kept := Greedy(ranked);
    SortContract(candidates, RanksBefore);
    SortContract(kept, StartsBefore);
    GreedyIsDisjoint(ranked);
    DisjointAnyOrder(kept, Selection(candidates));
    forall c ensures c in ranked <==> c in candidates { SameElements(candidates, ranked, c); }
    forall c ensures c in Selection(candidates) <==> c in kept { SameElements(kept, Selection(candidates), c); }
  }

  /** Of higher priority; or of the same and longer; or of the same length too and no later. */
  ghost predicate NoLowerThan(d: Candidate, c: Candidate) {
    || d.priority > c.priority
    || (d.priority == c.priority && d.end - d.start > c.end - c.start)
    || (d.priority == c.priority && d.end - d.start == c.end - c.start && d.start <= c.start)
  }

  /** Non-empty ranges overlap exactly when they share a character. */
  lemma OverlapMeansSharedCharacter(startA: int, endA: int, startB: int, endB: int)
    requires startA < endA && startB < endB
    ensures RangesOverlap(startA, endA, startB, endB) <==> exists k :: Within(startA, k, endA) && Within(startB, k, endB)
  {
    if RangesOverlap(startA, endA, startB, endB) {
      var k := if startA < startB then startB else startA;
      assert Within(startA, k, endA) && Within(startB, k, endB);
    }
  }

  predicate Within(start: int, k: int, end: int) {
    start <= k < end
  }

  /** Selected detections never overlap, and each refused candidate overlaps a selected one ranked no lower. */
  lemma SelectionIsMaximal(candidates: seq<Candidate>, c: Candidate)
    requires c in candidates
    ensures Disjoint(Selection(candidates))
    ensures c in Selection(candidates)
            || exists d :: d in Selection(candidates) && d in candidates && Overlap(c, d) && NoLowerThan(d, c)
  {
    hide Selection, Sort, Greedy;
    SelectionFacts(candidates);
    var ranked := Sort(candidates, RanksBefore);
    var i :| 0 <= i < |ranked| && ranked[i] == c;
    var k := GreedyRefusesForAReason(ranked, i);
    assert k == i || RanksBefore(ranked[k], ranked[i]);
    assert NoLowerThan(ranked[k], c);
  }

  /** Disjointness is about the elements, not their order. */
  lemma DisjointAnyOrder(a: seq<Candidate>, b: seq<Candidate>)
    requires Disjoint(a) && multiset(a) == multiset(b)
    ensures Disjoint(b)
  {
    forall i, j | 0 <= i < j < |b| ensures !Overlap(b[i], b[j]) && !Overlap(b[j], b[i]) {
      if Overlap(b[i], b[j]) || Overlap(b[j], b[i]) {
        TwoPlaces(b, i, j);
        var k, l := TwoIndices(a, b[i], b[j]);
      }
    }
  }

  lemma TwoPlaces(b: seq<Candidate>, i: nat, j: nat)
    requires i < j < |b|
    ensures multiset{b[i], b[j]} <= multiset(b)
  {
    assert b == b[..i] + [b[i]] + b[i + 1..j] + [b[j]] + b[j + 1..];
  }

  lemma TwoIndices(a: seq<Candidate>, x: Candidate, y: Candidate) returns (k: nat, l: nat)
    requires multiset{x, y} <= multiset(a)
    ensures k < |a| && l < |a| && k != l && a[k] == x && a[l] == y
  {
    assert x in multiset(a);
    k :| 0 <= k < |a| && a[k] == x;
    var rest := a[..k] + a[k + 1..];
    TakenOut(a, k);
    assert multiset{x, y} - multiset{x} == multiset{y};
    assert y in multiset(rest);
    var m :| 0 <= m < |rest| && rest[m] == y;
    l := if m < k then m else m + 1;
  }

  // ----- reordering the candidates -----

  datatype Rank = Rank(priority: int, length: int, start: int)

  predicate RankLeq(a: Rank, b: Rank) {
    if a.priority != b.priority then a.priority > b.priority
    else if a.length != b.length then a.length > b.length
    else a.start <= b.start
  }

  ghost function Ranks(s: seq<Candidate>): (r: seq<Rank>)
    ensures |r| == |s|
  {
    seq(|s|, i requires 0 <= i < |s| => Rank(s[i].priority, Length(s[i]), s[i].start))
  }

  /** The two lists hold the same ranges in the same order. */
  ghost predicate SameRanges(a: seq<Candidate>, b: seq<Candidate>) {
    |a| == |b| && forall i :: 0 <= i < |a| ==> a[i].start == b[i].start && a[i].end == b[i].end
  }

  lemma {:induction false} RanksOfPermutation(a: seq<Candidate>, b: seq<Candidate>)
    requires multiset(a) == multiset(b)
    ensures multiset(Ranks(a)) == multiset(Ranks(b))
    decreases |a|
  {
    assert |multiset(a)| == |a| && |multiset(b)| == |b|;
    if a != [] {
      var n := |a| - 1;
      SameElements(a, b, a[n]);
      var j :| 0 <= j < |b| && b[j] == a[n];
      var rest := b[..j] + b[j + 1..];
      TakenOut(a, n);
      TakenOut(b, j);
      assert a[..n] + a[n + 1..] == a[..n];
      Cancel(multiset(a[..n]), multiset(rest), a[n]);
      RanksOfPermutation(a[..n], rest);
      RanksTakenOut(a, n);
      RanksTakenOut(b, j);
    }
  }

  lemma RanksTakenOut(s: seq<Candidate>, j: nat)
    requires j < |s|
    ensures multiset(Ranks(s)) == multiset(Ranks(s[..j] + s[j + 1..])) + multiset{Rank(s[j].priority, Length(s[j]), s[j].start)}
  {
    TakenOut(Ranks(s), j);
    assert Ranks(s[..j] + s[j + 1..]) == Ranks(s)[..j] + Ranks(s)[j + 1..];
  }

  lemma SortedRangesAgree(a: seq<Candidate>, b: seq<Candidate>)
    requires multiset(a) == multiset(b)
    ensures SameRanges(Sort(a, RanksBefore), Sort(b, RanksBefore))
  {
    RankingIsATotalPreorder();
    var s, t := Sort(a, RanksBefore), Sort(b, RanksBefore);
    SortContract(a, RanksBefore);
    SortContract(b, RanksBefore);
    RanksOfPermutation(s, t);
    OrderIsUnique(Ranks(s), Ranks(t), RankLeq) by {
      assert TotalPreorder(RankLeq);
      forall i, j | 0 <= i < j < |s| ensures RankLeq(Ranks(s)[i], Ranks(s)[j]) { assert RanksBefore(s[i], s[j]); }
      forall i, j | 0 <= i < j < |t| ensures RankLeq(Ranks(t)[i], Ranks(t)[j]) { assert RanksBefore(t[i], t[j]); }
    }
    assert |s| == |Ranks(s)| == |Ranks(t)| == |t|;
    forall i | 0 <= i < |s| ensures s[i].start == t[i].start && s[i].end == t[i].end {
      assert Ranks(s)[i] == Ranks(t)[i];
    }
  }

  lemma {:induction false} GreedySeesOnlyRanges(a: seq<Candidate>, b: seq<Candidate>)
    requires SameRanges(a, b)
    ensures SameRanges(Greedy(a), Greedy(b))
    decreases |a|
  {
    if a != [] {
      var n := |a| - 1;
      GreedySeesOnlyRanges(a[..n], b[..n]);
      var k, l := Greedy(a[..n]), Greedy(b[..n]);
      assert forall m :: 0 <= m < |k| ==> Overlap(a[n], k[m]) == Overlap(b[n], l[m]);
      assert Free(k, a[n]) <==> Free(l, b[n]);
    }
  }

  lemma {:induction false} InsertSeesOnlyRanges(a: seq<Candidate>, x: Candidate, b: seq<Candidate>, y: Candidate)
    requires SameRanges(a, b) && x.start == y.start && x.end == y.end
    ensures SameRanges(Insert(a, x, StartsBefore), Insert(b, y, StartsBefore))
    decreases |a|
  {
    if a != [] { InsertSeesOnlyRanges(a[..|a| - 1], x, b[..|a| - 1], y); }
  }

  lemma {:induction false} SortSeesOnlyRanges(a: seq<Candidate>, b: seq<Candidate>)
    requires SameRanges(a, b)
    ensures SameRanges(Sort(a, StartsBefore), Sort(b, StartsBefore))
    decreases |a|
  {
    if a != [] {
      var n := |a| - 1;
      SortSeesOnlyRanges(a[..n], b[..n]);
      InsertSeesOnlyRanges(Sort(a[..n], StartsBefore), a[n], Sort(b[..n], StartsBefore), b[n]);
    }
  }

  /** The order in which patterns produced the candidates never changes which ranges are masked. */
  lemma ReorderingKeepsRanges(a: seq<Candidate>, b: seq<Candidate>)
    requires multiset(a) == multiset(b)
    ensures SameRanges(Selection(a), Selection(b))
  {
    hide SameRanges;
    SortedRangesAgree(a, b);
    GreedySeesOnlyRanges(Sort(a, RanksBefore), Sort(b, RanksBefore));
    SortSeesOnlyRanges(Greedy(Sort(a, RanksBefore)), Greedy(Sort(b, RanksBefore)));
  }

  // ----- splicing -----

  /** The candidate is a non-empty match in the text. */
  predicate Matches(text: string, c: Candidate) {
    c.start < c.end <= |text| && c.original == text[c.start..c.end]
  }

  /** In order, apart, inside the text from a position on. */
  ghost predicate InOrder(text: string, ds: seq<Candidate>, from: nat) {
    && from <= |text|
    && (forall i :: 0 <= i < |ds| ==> from <= ds[i].start < ds[i].end <= |text|)
    && (forall i, j :: 0 <= i < j < |ds| ==> ds[i].end <= ds[j].start)
  }

  /** Left to right: the gaps of the text with a replacement between them. */
  ghost function Weave(text: string, ds: seq<Candidate>, from: nat): string
    requires InOrder(text, ds, from)
    decreases ds
  {
    if ds == [] then text[from..]
    else text[from..ds[0].start] + ds[0].replacement + Weave(text, ds[1..], ds[0].end)
  }

  lemma {:induction false} WeaveFromEarlier(text: string, ds: seq<Candidate>, from: nat, later: nat)
    requires InOrder(text, ds, from) && InOrder(text, ds, later) && from <= later
    ensures Weave(text, ds, from) == text[from..later] + Weave(text, ds, later)
  {
  }

  lemma SelectionInOrder(text: string, candidates: seq<Candidate>)
    requires forall c :: c in candidates ==> Matches(text, c)
    ensures InOrder(text, Selection(candidates), 0)
    ensures forall c :: c in Selection(candidates) ==> Matches(text, c)
  {
    hide Selection;
    SelectionFacts(candidates);
    var ds := Selection(candidates);
    forall i | 0 <= i < |ds| ensures Matches(text, ds[i]) { assert ds[i] in ds; }
    forall i, j | 0 <= i < j < |ds| ensures ds[i].end <= ds[j].start {
      assert StartsBefore(ds[i], ds[j]);
      assert Matches(text, ds[j]);
    }
  }

  predicate StartsAfter(a: Candidate, b: Candidate) {
    b.start <= a.start
  }

  ghost function Reversed(s: seq<Candidate>): (r: seq<Candidate>)
    ensures |r| == |s| && forall i :: 0 <= i < |s| ==> r[i] == s[|s| - 1 - i]
  {
    seq(|s|, i requires 0 <= i < |s| => s[|s| - 1 - i])
  }

  lemma {:induction false} ReversedElements(s: seq<Candidate>)
    ensures multiset(Reversed(s)) == multiset(s)
  {
    if s != [] {
      var n := |s| - 1;
      ReversedElements(s[..n]);
      assert Reversed(s) == [s[n]] + Reversed(s[..n]);
      assert s == s[..n] + [s[n]];
    }
  }

  /** The descending sort of detections in order is their reversal. */
  lemma DescendingIsReversed(text: string, ds: seq<Candidate>)
    requires InOrder(text, ds, 0)
    ensures Sort(ds, StartsAfter) == Reversed(ds)
  {
    var down := Sort(ds, StartsAfter);
    SortContract(ds, StartsAfter);
    ReversedElements(ds);
    forall x, y | x in down && y in down && StartsAfter(x, y) && StartsAfter(y, x) ensures x == y {
      SameElements(down, ds, x);
      SameElements(down, ds, y);
      var i :| 0 <= i < |ds| && ds[i] == x;
      var j :| 0 <= j < |ds| && ds[j] == y;
      assert i == j;
    }
    OrderIsUnique(down, Reversed(ds), StartsAfter);
  }

  method MaskPII(text: string, candidates: seq<Candidate>) returns (maskedText: string, detections: seq<Candidate>)
    requires forall c :: c in candidates ==> Matches(text, c)
    ensures detections == Selection(candidates) && InOrder(text, detections, 0)
    ensures maskedText == Weave(text, detections, 0)
  {
    hide Selection, Sort, Matches, Weave, InOrder, Reversed;
    detections := Select(candidates);
    SelectionInOrder(text, candidates);
    maskedText := text;
    NothingToWeave(text);
    if |detections| == 0 { return; }
    var descending := Sort(detections, StartsAfter);
    DescendingIsReversed(text, detections);
    ghost var n := |detections|;
    assert detections[n..] == [] && detections[0..] == detections;
    for i := 0 to |descending|
      invariant InOrder(text, detections[n - i..], 0)
      invariant maskedText == Weave(text, detections[n - i..], 0)
    {
      var d := descending[i];
      SpliceStep(text, detections, n - i - 1);
      maskedText := maskedText[..d.start] + d.replacement + maskedText[d.end..];
    }
  }

  lemma NothingToWeave(text: string)
    ensures InOrder(text, [], 0) && Weave(text, [], 0) == text
  {
  }

  /** Splicing one more detection into the already masked tail is one more step of the weave. */
  lemma SpliceStep(text: string, ds: seq<Candidate>, j: nat)
    requires InOrder(text, ds, 0) && j < |ds|
    ensures InOrder(text, ds[j + 1..], 0) && InOrder(text, ds[j..], 0)
    ensures var masked := Weave(text, ds[j + 1..], 0);
            && ds[j].start < ds[j].end <= |masked|
            && Weave(text, ds[j..], 0) == masked[..ds[j].start] + ds[j].replacement + masked[ds[j].end..]
  {
    var d, tail := ds[j], ds[j + 1..];
    assert ds[j..][0] == d && ds[j..][1..] == tail;
    assert InOrder(text, tail, d.end);
    WeaveFromEarlier(text, tail, 0, d.end);
    var masked := Weave(text, tail, 0);
    assert masked == text[..d.end] + Weave(text, tail, d.end);
    assert masked[..d.start] == text[0..d.start];
    assert masked[d.end..] == Weave(text, tail, d.end);
  }

  /** Net change of length. */
  ghost function Growth(ds: seq<Candidate>): int {
    if ds == [] then 0 else |ds[0].replacement| - (ds[0].end - ds[0].start) + Growth(ds[1..])
  }

  lemma {:induction false} MaskedLength(text: string, ds: seq<Candidate>, from: nat)
    requires InOrder(text, ds, from)
    ensures |Weave(text, ds, from)| == |text| - from + Growth(ds)
    decreases ds
  {
    if ds != [] { MaskedLength(text, ds[1..], ds[0].end); }
  }

  /** Puts the originals back where the replacements stand. */
  ghost function Unmask(masked: string, ds: seq<Candidate>, from: nat): string
    decreases ds
  {
    if ds == [] then masked
    else
      var gap := ds[0].start - from;
      if 0 <= gap && gap + |ds[0].replacement| <= |masked|
      then masked[..gap] + ds[0].original + Unmask(masked[gap + |ds[0].replacement|..], ds[1..], ds[0].end)
      else masked
  }

  lemma UnmaskOne(gap: string, rest: string, ds: seq<Candidate>, from: nat)
    requires ds != [] && ds[0].start - from == |gap|
    ensures Unmask(gap + ds[0].replacement + rest, ds, from) == gap + ds[0].original + Unmask(rest, ds[1..], ds[0].end)
  {
  }

  /** Nothing but the detected ranges is lost: the text can be rebuilt from the masked text and the detections. */
  lemma {:induction false} MaskingIsReversible(text: string, ds: seq<Candidate>, from: nat)
    requires InOrder(text, ds, from) && forall i :: 0 <= i < |ds| ==> Matches(text, ds[i])
    ensures Unmask(Weave(text, ds, from), ds, from) == text[from..]
    decreases ds
  {
    if ds != [] {
      var d := ds[0];
      MaskingIsReversible(text, ds[1..], d.end);
      UnmaskOne(text[from..d.start], Weave(text, ds[1..], d.end), ds, from);
      hide Unmask, Weave;
      assert Matches(text, d);
      assert text[from..] == text[from..d.start] + text[d.start..d.end] + text[d.end..];
    }
  }
}
