/**
 The chunk worker pool and the tag aggregation of src/services/ai-tagger.ts.  Workers interleave at their
 awaits; between two awaits a worker runs alone, so claiming an index is one step.
 */
module TaggerPool {
  import opened Options

  /** A worker is at its loop test, waiting for the tags of a chunk, or through. */
  datatype Worker = Ready | Busy(index: nat) | Done

  /** claimed lists the indices in the order in which they were taken. */
  datatype Pool<R> = Pool(nextIndex: nat, workers: seq<Worker>, results: seq<Option<R>>, claimed: seq<nat>)

  function WorkerCount(concurrency: int, n: nat): nat {
    if concurrency <= 0 then 0 else if concurrency <= n then concurrency else n
  }

  ghost function Launch<R>(concurrency: int, n: nat): Pool<R> {
    Pool(0, seq(WorkerCount(concurrency, n), _ => Ready), seq(n, _ => None), [])
  }

  /** Worker w takes its next step; tag(i) is what tagging chunk i yields. */
  ghost function Advance<R>(p: Pool<R>, w: nat, tag: nat -> R): Pool<R>
    requires w < |p.workers|
  {
    match p.workers[w]
    case Ready =>
      if p.nextIndex < |p.results|
      then Pool(p.nextIndex + 1, p.workers[w := Busy(p.nextIndex)], p.results, p.claimed + [p.nextIndex])
      else p.(workers := p.workers[w := Done])
    case Busy(i) =>
      if i < |p.results| then p.(workers := p.workers[w := Ready], results := p.results[i := Some(tag(i))]) else p
    case Done => p
  }

  ghost predicate IsSchedule<R(!new)>(pools: seq<Pool<R>>, who: seq<nat>, tag: nat -> R, concurrency: int, n: nat) {
    && |pools| == |who| + 1 && pools[0] == Launch(concurrency, n)
    && (forall k :: 0 <= k < |who| ==> who[k] < |pools[k].workers| && !pools[k].workers[who[k]].Done?
                                        && pools[k + 1] == Advance(pools[k], who[k], tag))
  }

  /** Indices are taken in turn, each once; a taken index is in work at one worker, or its slot holds its own result. */
  ghost predicate Sound<R>(p: Pool<R>, tag: nat -> R, n: nat) {
    && |p.results| == n && p.nextIndex <= n
    && |p.claimed| == p.nextIndex && (forall k :: 0 <= k < p.nextIndex ==> p.claimed[k] == k)
    && (forall w :: 0 <= w < |p.workers| && p.workers[w].Busy? ==> p.workers[w].index < p.nextIndex)
    && (forall v, w :: 0 <= v < w < |p.workers| && p.workers[v].Busy? ==> p.workers[v] != p.workers[w])
    && (forall i :: 0 <= i < p.nextIndex ==> p.results[i] == Some(tag(i)) || (p.results[i] == None && InWork(p.workers, i)))
    && (forall i :: p.nextIndex <= i < n ==> p.results[i] == None)
    && ((exists w :: 0 <= w < |p.workers| && p.workers[w].Done?) ==> p.nextIndex == n)
  }

  ghost predicate InWork(workers: seq<Worker>, i: nat) {
    exists w :: 0 <= w < |workers| && workers[w] == Busy(i)
  }

  lemma AdvanceKeepsSound<R>(p: Pool<R>, w: nat, tag: nat -> R, n: nat)
    requires Sound(p, tag, n) && w < |p.workers|
    ensures Sound(Advance(p, w, tag), tag, n)
  {
    var q := Advance(p, w, tag);
    forall i | 0 <= i < q.nextIndex
      ensures q.results[i] == Some(tag(i)) || (q.results[i] == None && InWork(q.workers, i))
    {
      if i < p.nextIndex && q.results[i] == None {
        var v :| 0 <= v < |p.workers| && p.workers[v] == Busy(i);
        assert q.workers[v] == Busy(i);
      } else if i == p.nextIndex {
        assert q.workers[w] == Busy(i);
      }
    }
    forall v | 0 <= v < |q.workers| && q.workers[v].Done? ensures q.nextIndex == n {
      if v != w { assert p.workers[v].Done?; }
    }
  }

  /** Under every interleaving every state is sound. */
  lemma {:induction false} EveryScheduleIsSound<R(!new)>(pools: seq<Pool<R>>, who: seq<nat>, tag: nat -> R, concurrency: int, n: nat, k: nat)
    requires IsSchedule(pools, who, tag, concurrency, n) && k < |pools|
    ensures Sound(pools[k], tag, n) && |pools[k].workers| == WorkerCount(concurrency, n)
  {
    if k > 0 {
      EveryScheduleIsSound(pools, who, tag, concurrency, n, k - 1);
      AdvanceKeepsSound(pools[k - 1], who[k - 1], tag, n);
      assert pools[k - 1 + 1] == Advance(pools[k - 1], who[k - 1], tag);
    }
  }

  ghost predicate AllDone(workers: seq<Worker>) {
    forall w :: 0 <= w < |workers| ==> workers[w].Done?
  }

  ghost predicate Complete<R>(p: Pool<R>, tag: nat -> R) {
    forall i :: 0 <= i < |p.results| ==> p.results[i] == Some(tag(i))
  }

  /** When all workers are through, every slot holds its own chunk's result, exactly if there was a worker or no chunk. */
  lemma ResultsAreComplete<R(!new)>(pools: seq<Pool<R>>, who: seq<nat>, tag: nat -> R, concurrency: int, n: nat)
    requires IsSchedule(pools, who, tag, concurrency, n) && AllDone(pools[|who|].workers)
    ensures Complete(pools[|who|], tag) <==> concurrency >= 1 || n == 0
    ensures concurrency >= 1 ==> pools[|who|].nextIndex == n
  {
    var p := pools[|who|];
    EveryScheduleIsSound(pools, who, tag, concurrency, n, |who|);
    if concurrency >= 1 && n > 0 {
      assert p.workers[0].Done?;
      forall i | 0 <= i < n ensures p.results[i] == Some(tag(i)) {
        assert !InWork(p.workers, i);
      }
    } else if n > 0 {
      NoWorkerNoStep(pools, who, tag, concurrency, n);
      assert p.results[0] == None;
    }
  }

  lemma NoWorkerNoStep<R(!new)>(pools: seq<Pool<R>>, who: seq<nat>, tag: nat -> R, concurrency: int, n: nat)
    requires IsSchedule(pools, who, tag, concurrency, n) && concurrency <= 0
    ensures who == []
  {
  }

  // ----- in-flight chunks -----

  ghost function InFlight(workers: seq<Worker>): set<nat> {
    set w | 0 <= w < |workers| && workers[w].Busy? :: workers[w].index
  }

  /** No more chunks are in work than there are workers. */
  lemma {:induction false} InFlightIsBounded(workers: seq<Worker>)
    ensures |InFlight(workers)| <= |workers|
  {
    if workers != [] {
      hide InFlight;
      InFlightIsBounded(workers[..|workers| - 1]);
      InFlightAtLast(workers);
    }
  }

  lemma InFlightAtLast(workers: seq<Worker>)
    requires workers != []
    ensures var last := workers[|workers| - 1];
            InFlight(workers) == InFlight(workers[..|workers| - 1]) + if last.Busy? then {last.index} else {}
  {
  }

  lemma NeverMoreThanConcurrency<R(!new)>(pools: seq<Pool<R>>, who: seq<nat>, tag: nat -> R, concurrency: int, n: nat, k: nat)
    requires IsSchedule(pools, who, tag, concurrency, n) && concurrency >= 0 && k < |pools|
    ensures |InFlight(pools[k].workers)| <= concurrency
  {
    EveryScheduleIsSound(pools, who, tag, concurrency, n, k);
    InFlightIsBounded(pools[k].workers);
  }

  // ----- the workers are used -----

  /** As many chunks as the concurrency allows, or all of them, can be in work at once. */
  lemma {:induction false} WorkersCanAllBeBusy<R(!new)>(tag: nat -> R, concurrency: int, n: nat, m: nat)
    returns (pools: seq<Pool<R>>, who: seq<nat>)
    requires m <= n && m <= concurrency
    ensures IsSchedule(pools, who, tag, concurrency, n) && |who| == m
    ensures |InFlight(pools[m].workers)| == m
    ensures var p := pools[m];
            && p.nextIndex == m && |p.results| == n && |p.workers| == WorkerCount(concurrency, n) >= m
            && (forall w :: 0 <= w < |p.workers| ==> p.workers[w] == if w < m then Busy(w) else Ready)
    decreases m
  {
    if m == 0 {
      pools, who := [Launch(concurrency, n)], [];
      BusyUpTo(pools[0].workers, 0);
    } else {
      pools, who := WorkersCanAllBeBusy(tag, concurrency, n, m - 1);
      var p := pools[m - 1];
      var q := Advance(p, m - 1, tag);
      BusyUpTo(q.workers, m);
      OneMoreStep(pools, who, tag, concurrency, n, m - 1, q);
      pools, who := pools + [q], who + [m - 1];
    }
  }

  lemma {:induction false} BusyUpTo(workers: seq<Worker>, m: nat)
    requires m <= |workers| && forall w :: 0 <= w < |workers| ==> workers[w] == if w < m then Busy(w) else Ready
    ensures |InFlight(workers)| == m
    decreases m
  {
    if m == 0 {
      assert InFlight(workers) == {};
    } else {
      var before := workers[m - 1 := Ready];
      BusyUpTo(before, m - 1);
      assert InFlight(workers) == InFlight(before) + {m - 1} && m - 1 !in InFlight(before) by { InFlightOfOneMore(workers, before, m); }
    }
  }

  lemma InFlightOfOneMore(workers: seq<Worker>, before: seq<Worker>, m: nat)
    requires 1 <= m <= |workers| && forall w :: 0 <= w < |workers| ==> workers[w] == if w < m then Busy(w) else Ready
    requires before == workers[m - 1 := Ready]
    ensures InFlight(workers) == InFlight(before) + {m - 1} && m - 1 !in InFlight(before)
  {
    assert forall w :: 0 <= w < |workers| && w != m - 1 ==> before[w] == workers[w];
    assert workers[m - 1].index == m - 1;
  }

  lemma OneMoreStep<R(!new)>(pools: seq<Pool<R>>, who: seq<nat>, tag: nat -> R, concurrency: int, n: nat, w: nat, q: Pool<R>)
    requires IsSchedule(pools, who, tag, concurrency, n)
    requires var p := pools[|who|]; w < |p.workers| && !p.workers[w].Done? && q == Advance(p, w, tag)
    ensures IsSchedule(pools + [q], who + [w], tag, concurrency, n)
  {
    hide Advance, Launch;
  }

  // ----- every schedule ends -----

  ghost function Rank(worker: Worker): nat {
    match worker case Done => 0 case Ready => 1 case Busy(_) => 2
  }

  ghost function Ranks(workers: seq<Worker>): nat {
    if workers == [] then 0 else Ranks(workers[..|workers| - 1]) + Rank(workers[|workers| - 1])
  }

  lemma {:induction false} RanksUpdate(workers: seq<Worker>, w: nat, x: Worker)
    requires w < |workers|
    ensures Ranks(workers[w := x]) == Ranks(workers) - Rank(workers[w]) + Rank(x)
  {
    var n := |workers| - 1;
    if w == n {
      assert workers[w := x][..n] == workers[..n];
    } else {
      RanksUpdate(workers[..n], w, x);
      assert workers[w := x][..n] == workers[..n][w := x];
    }
  }

  ghost function Work<R>(p: Pool<R>): int {
    2 * (|p.results| - p.nextIndex) + Ranks(p.workers)
  }

  /** Each step uses up some work, so no schedule is longer than the work at launch. */
  lemma AdvanceUsesWork<R>(p: Pool<R>, w: nat, tag: nat -> R, n: nat)
    requires Sound(p, tag, n) && w < |p.workers| && !p.workers[w].Done?
    ensures 0 <= Work(Advance(p, w, tag)) < Work(p)
  {
    AdvanceKeepsSound(p, w, tag, n);
    RanksUpdate(p.workers, w, Advance(p, w, tag).workers[w]);
  }

  lemma {:induction false} SchedulesAreFinite<R(!new)>(pools: seq<Pool<R>>, who: seq<nat>, tag: nat -> R, concurrency: int, n: nat, k: nat)
    requires IsSchedule(pools, who, tag, concurrency, n) && k < |pools|
    ensures k + Work(pools[k]) <= 2 * n + WorkerCount(concurrency, n)
    ensures Work(pools[k]) >= 0
  {
    EveryScheduleIsSound(pools, who, tag, concurrency, n, k);
    if k == 0 {
      RanksAtLaunch(WorkerCount(concurrency, n));
    } else {
      EveryScheduleIsSound(pools, who, tag, concurrency, n, k - 1);
      SchedulesAreFinite(pools, who, tag, concurrency, n, k - 1);
      AdvanceUsesWork(pools[k - 1], who[k - 1], tag, n);
      assert pools[k - 1 + 1] == Advance(pools[k - 1], who[k - 1], tag);
    }
  }

  lemma {:induction false} RanksAtLaunch(m: nat)
    ensures Ranks(seq(m, _ => Ready)) == m
  {
    if m > 0 {
      RanksAtLaunch(m - 1);
      assert seq(m, _ => Ready)[..m - 1] == seq(m - 1, _ => Ready);
    }
  }

  // ----- aggregation -----

  datatype Stage = TOFU | MOFU | BOFU | POST_SALE | INTERNAL | VERTICAL

  function Name(stage: Stage): string {
    match stage
    case TOFU => "TOFU" case MOFU => "MOFU" case BOFU => "BOFU"
    case POST_SALE => "POST_SALE" case INTERNAL => "INTERNAL" case VERTICAL => "VERTICAL"
  }

  datatype Tag = Tag(stage: Stage, topic: string, confidence: real)

  function Key(tag: Tag): string {
    Name(tag.stage) + ":" + tag.topic
  }

  lemma NamesTellStagesApart(a: Stage, b: Stage)
    requires Name(a) == Name(b)
    ensures a == b
  {
  }

  lemma NoColon(stage: Stage)
    ensures ':' !in Name(stage)
  {
  }

  /** The joined key loses nothing: equal keys mean equal stage and topic. */
  lemma KeyIsInjective(a: Tag, b: Tag)
    requires Key(a) == Key(b)
    ensures a.stage == b.stage && a.topic == b.topic
  {
    var x, y := Name(a.stage), Name(b.stage);
    NoColon(a.stage);
    NoColon(b.stage);
    var s := Key(a);
    assert s == x + ":" + a.topic == y + ":" + b.topic;
    assert s[|x|] == ':' && s[|y|] == ':';
    assert forall i :: 0 <= i < |x| ==> s[i] == x[i];
    assert forall i :: 0 <= i < |y| ==> s[i] == y[i];
    assert |x| == |y|;
    assert s[..|x|] == x == y && s[|x| + 1..] == a.topic == b.topic;
    NamesTellStagesApart(a.stage, b.stage);
  }

  /** m holds, for each stage and topic that occurs, a tag of it that no other beats. */
  ghost predicate IsBest(m: map<string, Tag>, tags: seq<Tag>) {
    && (forall t :: t in tags ==> Key(t) in m && t.confidence <= m[Key(t)].confidence)
    && (forall k :: k in m ==> m[k] in tags && Key(m[k]) == k)
  }

  ghost function AllTags(chunks: seq<seq<Tag>>): seq<Tag> {
    if chunks == [] then [] else AllTags(chunks[..|chunks| - 1]) + chunks[|chunks| - 1]
  }

  method AggregateCallTags(chunkResults: seq<seq<Tag>>) returns (tagMap: map<string, Tag>)
    ensures IsBest(tagMap, AllTags(chunkResults))
  {
    hide IsBest, AllTags, Key;
    tagMap := map[];
    NoTags();
    for c := 0 to |chunkResults|
      invariant IsBest(tagMap, AllTags(chunkResults[..c]))
    {
      ghost var seen := AllTags(chunkResults[..c]);
      var tags := chunkResults[c];
      assert tags[..0] == [] && seen + [] == seen;
      for i := 0 to |tags|
        invariant IsBest(tagMap, seen + tags[..i])
      {
        var tag := tags[i];
        BestWithOneMore(tagMap, seen + tags[..i], tag);
        assert seen + tags[..i + 1] == seen + tags[..i] + [tag];
        if Key(tag) !in tagMap || tag.confidence > tagMap[Key(tag)].confidence {
          tagMap := tagMap[Key(tag) := tag];
        }
      }
      assert tags[..|tags|] == tags;
      OneMoreChunk(chunkResults, c);
    }
    assert chunkResults[..|chunkResults|] == chunkResults;
  }

  lemma NoTags()
    ensures AllTags([]) == [] && IsBest(map[], [])
  {
  }

  lemma OneMoreChunk(chunks: seq<seq<Tag>>, c: nat)
    requires c < |chunks|
    ensures AllTags(chunks[..c + 1]) == AllTags(chunks[..c]) + chunks[c]
  {
    assert chunks[..c + 1][..c] == chunks[..c];
  }

  lemma BestWithOneMore(m: map<string, Tag>, tags: seq<Tag>, tag: Tag)
    requires IsBest(m, tags)
    ensures if Key(tag) !in m || tag.confidence > m[Key(tag)].confidence then IsBest(m[Key(tag) := tag], tags + [tag])
            else IsBest(m, tags + [tag])
  {
  }

  /** The aggregate depends only on which tags there are, not on how chunks order them. */
  lemma AggregateIgnoresOrder(m: map<string, Tag>, tags: seq<Tag>, m': map<string, Tag>, tags': seq<Tag>)
    requires IsBest(m, tags) && IsBest(m', tags') && forall t :: t in tags <==> t in tags'
    ensures m == m'
  {
    forall k | k in m ensures k in m' && m[k] == m'[k] {
      assert m[k] in tags';
      KeyIsInjective(m[k], m'[k]);
    }
    forall k | k in m' ensures k in m {
      assert m'[k] in tags;
    }
  }
}
