/**
 The paged call sync of src/integrations/sync-engine.ts: the saved cursor, and the proof that interruptions
 do not change what a sync that completes leaves behind.
 */
module CallSync {
  import opened Options
  import opened CallTables

  // ----- a provider's pages -----

  /**
   What the provider serves while a sync lasts, in segments: a segment ends with a page that does not ask to go on,
   and the next segment is what the cursor handed out with that page leads to.  The provider interface promises a
   null cursor there, so a provider that keeps it has one segment; after the last one the cursor is null.
   */
  datatype Feed = Feed(segments: seq<seq<seq<NormalizedCall>>>) {
    ghost predicate Valid() {
      segments != [] && forall j :: 0 <= j < |segments| ==> segments[j] != []
    }

    ghost predicate HasPage(spot: Spot) {
      spot.segment < |segments| && spot.page < |segments[spot.segment]|
    }

    ghost function PageAt(spot: Spot): seq<NormalizedCall>
      requires HasPage(spot)
    {
      segments[spot.segment][spot.page]
    }

    /** The calls of a segment. */
    ghost function Calls(j: nat): seq<NormalizedCall>
      requires j < |segments|
    {
      Flatten(segments[j])
    }

    /** The calls of all segments before j. */
    ghost function Before(j: nat): seq<NormalizedCall>
      requires j <= |segments|
    {
      if j == 0 then [] else Before(j - 1) + Calls(j - 1)
    }

    /** Where the cursor handed out with the last page of a segment leads; a null one leads to the first page. */
    ghost function After(j: nat): Spot {
      if j + 1 < |segments| then Spot(j + 1, 0) else FIRST
    }
  }

  datatype Spot = Spot(segment: nat, page: nat)

  const FIRST := Spot(0, 0)

  ghost function Flatten(pages: seq<seq<NormalizedCall>>): seq<NormalizedCall> {
    if pages == [] then [] else Flatten(pages[..|pages| - 1]) + pages[|pages| - 1]
  }

  /** What one uninterrupted pass leaves. */
  ghost function Uninterrupted(t: Tables, f: Feed): Tables
    requires f.Valid()
  {
    PersistAll(t, f.Calls(0))
  }

  ghost function Offset(pages: seq<seq<NormalizedCall>>, k: nat): nat
    requires k <= |pages|
  {
    |Flatten(pages[..k])|
  }

  lemma {:induction false} PageInside(pages: seq<seq<NormalizedCall>>, k: nat)
    requires k < |pages|
    ensures Offset(pages, k + 1) == Offset(pages, k) + |pages[k]| <= |Flatten(pages)|
    ensures Flatten(pages)[Offset(pages, k)..Offset(pages, k + 1)] == pages[k]
    ensures Offset(pages, |pages|) == |Flatten(pages)| && Offset(pages, 0) == 0
    decreases |pages|
  {
    var n := |pages| - 1;
    assert pages[..|pages|] == pages;
    assert pages[..0] == [];
    assert pages[..k + 1][..k] == pages[..k];
    if k < n {
      PageInside(pages[..n], k);
      assert pages[..n][..k] == pages[..k] && pages[..n][..k + 1] == pages[..k + 1];
    } else {
      assert pages[..k] == pages[..n];
    }
  }

  lemma {:induction false} FlattenConcat(a: seq<seq<NormalizedCall>>, b: seq<seq<NormalizedCall>>)
    ensures Flatten(a + b) == Flatten(a) + Flatten(b)
    decreases |b|
  {
    if b == [] {
      assert a + b == a;
    } else {
      var n := |b| - 1;
      FlattenConcat(a, b[..n]);
      assert (a + b)[..|a + b| - 1] == a + b[..n];
    }
  }

  lemma OnePage(page: seq<NormalizedCall>)
    ensures Flatten([page]) == page
  {
    assert [page][..0] == [];
    assert Flatten([page]) == Flatten([page][..0]) + page;
  }

  // ----- the sync as a machine that may stop anywhere -----

  datatype Phase = Idle | At(spot: Spot, index: nat) | PagesDone | Finished

  /** cursor is the page the stored cursor leads to. */
  datatype Sync = Sync(tables: Tables, cursor: Spot, phase: Phase, pending: Option<string>, queue: seq<string>)

  ghost predicate Begins(f: Feed, s: Sync, s': Sync) {
    s.phase.Idle? && f.HasPage(s.cursor) && s' == s.(phase := At(s.cursor, 0))
  }

  ghost predicate Persists(f: Feed, s: Sync, s': Sync) {
    && s.phase.At? && s.pending.None? && f.HasPage(s.phase.spot) && s.phase.index < |f.PageAt(s.phase.spot)|
    && var c := f.PageAt(s.phase.spot)[s.phase.index];
       && !Refuses(s.tables.calls.Keys, c)
       && s' == s.(tables := Persist(s.tables, c), phase := At(s.phase.spot, s.phase.index + 1),
                   pending := if CreatesTranscript(s.tables, c) then Some(c.externalId) else None)
  }

  ghost predicate Enqueues(s: Sync, s': Sync) {
    s.phase.At? && s.pending.Some? && s' == s.(pending := None, queue := s.queue + [s.pending.value])
  }

  ghost predicate SavesCursor(f: Feed, s: Sync, s': Sync) {
    && s.phase.At? && s.pending.None? && f.HasPage(s.phase.spot) && s.phase.index == |f.PageAt(s.phase.spot)|
    && var next := s.phase.spot.(page := s.phase.spot.page + 1);
       s' == if f.HasPage(next) then s.(cursor := next, phase := At(next, 0))
             else s.(cursor := f.After(next.segment), phase := PagesDone)
  }

  ghost predicate Completes(s: Sync, s': Sync) {
    s.phase.PagesDone? && s' == s.(cursor := FIRST, phase := Finished)
  }

  /** The process dies, or a refused call ends the sync: what was saved stays, what was held in memory is gone. */
  ghost predicate Crashes(s: Sync, s': Sync) {
    (s.phase.At? || s.phase.PagesDone?) && s' == s.(phase := Idle, pending := None)
  }

  ghost predicate Next(f: Feed, s: Sync, s': Sync) {
    Begins(f, s, s') || Persists(f, s, s') || Enqueues(s, s') || SavesCursor(f, s, s') || Completes(s, s') || Crashes(s, s')
  }

  ghost predicate IsHistory(f: Feed, states: seq<Sync>) {
    && states != [] && states[0].cursor == FIRST && states[0].phase == Idle && states[0].pending == None
    && (forall i :: 0 <= i < |states| - 1 ==> Next(f, states[i], states[i + 1]))
  }

  // ----- interrupted runs end where an uninterrupted one does -----

  ghost predicate Known(t: Tables, xs: seq<NormalizedCall>) {
    forall i :: 0 <= i < |xs| ==> xs[i].externalId in t.calls
  }

  /** From position pos the pass still ends in the goal, and everything before pos has been persisted at least once. */
  ghost predicate OnTrack(t: Tables, xs: seq<NormalizedCall>, pos: nat, goal: Tables) {
    pos <= |xs| && PersistAll(t, xs[pos..]) == goal && Known(t, xs[..pos])
  }

  /** Persisting the call at pos keeps every earlier position on track and moves pos on. */
  lemma PersistKeepsTrack(t: Tables, xs: seq<NormalizedCall>, pos: nat, from: nat, goal: Tables)
    requires from <= pos < |xs| && OnTrack(t, xs, pos, goal) && OnTrack(t, xs, from, goal)
    ensures OnTrack(Persist(t, xs[pos]), xs, from, goal)
    ensures OnTrack(Persist(t, xs[pos]), xs, pos + 1, goal)
  {
    var t' := Persist(t, xs[pos]);
    var ys, k := xs[from..], pos - from;
    assert ys[k] == xs[pos];
    if xs[pos].externalId !in t.calls {
      forall j | 0 <= j < k ensures ys[j].externalId != ys[k].externalId {
        assert ys[j] == xs[..pos][from + j];
      }
    }
    Absorbed(t, ys, k);
    assert xs[pos..][0] == xs[pos] && xs[pos..][1..] == xs[pos + 1..];
    assert forall id :: id in t.calls ==> id in t'.calls;
    var seen := xs[..pos + 1];
    forall i | 0 <= i < |seen| ensures seen[i].externalId in t'.calls {
      if i < pos { assert xs[..pos][i] == seen[i]; }
    }
  }

  lemma TrackStarts(t: Tables, xs: seq<NormalizedCall>, goal: Tables)
    requires PersistAll(t, xs) == goal
    ensures OnTrack(t, xs, 0, goal)
  {
  }

  lemma TrackEnds(t: Tables, xs: seq<NormalizedCall>, goal: Tables)
    requires OnTrack(t, xs, |xs|, goal)
    ensures t == goal
  {
  }

  /** A second whole pass over the same calls changes nothing. */
  lemma SecondPassIsIdle(t: Tables, xs: seq<NormalizedCall>)
    ensures PersistAll(PersistAll(t, xs), xs) == PersistAll(t, xs)
  {
    TrackStarts(t, xs, PersistAll(t, xs));
    WholePassOnTrack(t, xs, 0, PersistAll(t, xs));
  }

  lemma {:induction false} WholePassOnTrack(t: Tables, xs: seq<NormalizedCall>, pos: nat, goal: Tables)
    requires OnTrack(t, xs, 0, goal) && OnTrack(t, xs, pos, goal)
    ensures PersistAll(goal, xs) == goal
    decreases |xs| - pos
  {
    if pos < |xs| {
      PersistKeepsTrack(t, xs, pos, 0, goal);
      WholePassOnTrack(Persist(t, xs[pos]), xs, pos + 1, goal);
    } else {
      TrackEnds(t, xs, goal);
      assert xs[0..] == xs;
    }
  }

  /** How many calls of its segment come before a page. */
  ghost function Position(f: Feed, spot: Spot): nat
    requires f.HasPage(spot)
  {
    Offset(f.segments[spot.segment], spot.page)
  }

  ghost predicate OnTrackAt(f: Feed, goal: Tables, t: Tables, spot: Spot, i: nat)
    requires f.HasPage(spot)
  {
    OnTrack(t, f.Calls(spot.segment), Position(f, spot) + i, goal)
  }

  /** The calls of a segment add nothing to the goal. */
  ghost predicate AddsNothing(f: Feed, goal: Tables, j: nat)
    requires j < |f.segments|
  {
    PersistAll(goal, f.Calls(j)) == goal
  }

  /** On track, unless the segment does add something. */
  ghost predicate Follows(f: Feed, goal: Tables, t: Tables, spot: Spot, i: nat)
    requires f.HasPage(spot)
  {
    AddsNothing(f, goal, spot.segment) ==> OnTrackAt(f, goal, t, spot, i)
  }

  ghost predicate Resumable(f: Feed, goal: Tables, s: Sync) {
    && f.Valid() && f.HasPage(s.cursor) && Follows(f, goal, s.tables, s.cursor, 0)
    && match s.phase
       case Idle => true
       case At(spot, i) => spot == s.cursor && i <= |f.PageAt(spot)| && Follows(f, goal, s.tables, spot, i)
       case PagesDone => s.tables == goal
       case Finished => s.tables == goal
  }

  // ----- no interrupted run gets past a refused call -----

  /** Everything the provider can serve, in order. */
  ghost function Whole(f: Feed): seq<NormalizedCall> {
    f.Before(|f.segments|)
  }

  /** How many calls come before a page. */
  ghost function Start(f: Feed, spot: Spot): nat
    requires f.HasPage(spot)
  {
    |f.Before(spot.segment)| + Position(f, spot)
  }

  /** Exactly the calls before position high have been persisted, and none of them was refused. */
  ghost predicate ScreenedTo(f: Feed, known: set<string>, t: Tables, high: nat) {
    high <= |Whole(f)| && t.calls.Keys == known + Ids(Whole(f)[..high]) && Accepts(known, Whole(f)[..high])
  }

  /** The position a sync has come to, from what its cursor and phase say. */
  ghost predicate ComesTo(f: Feed, s: Sync, high: nat) {
    && f.Valid() && f.HasPage(s.cursor) && Start(f, s.cursor) <= high
    && match s.phase
       case Idle => true
       case At(spot, i) => spot == s.cursor && i <= |f.PageAt(spot)| && Start(f, spot) + i <= high
       case PagesDone => |f.Before(1)| <= high
       case Finished => |f.Before(1)| <= high
  }

  ghost predicate Screened(f: Feed, known: set<string>, s: Sync) {
    exists high: nat :: ScreenedTo(f, known, s.tables, high) && ComesTo(f, s, high)
  }

  /** Earlier segments come first. */
  lemma {:induction false} BeforeIsPrefix(f: Feed, j: nat, l: nat)
    requires j <= l <= |f.segments|
    ensures f.Before(j) <= f.Before(l)
    decreases l
  {
    if j < l { BeforeIsPrefix(f, j, l - 1); }
  }

  lemma PositionFacts(f: Feed, spot: Spot)
    requires f.HasPage(spot)
    ensures var xs, page := f.Calls(spot.segment), f.PageAt(spot);
            && Position(f, spot) + |page| <= |xs|
            && (spot.page == 0 ==> Position(f, spot) == 0)
            && (var next := spot.(page := spot.page + 1);
                Position(f, spot) + |page| == if f.HasPage(next) then Position(f, next) else |xs|)
            && forall i :: 0 <= i < |page| ==> xs[Position(f, spot) + i] == page[i]
  {
    var pages, k := f.segments[spot.segment], spot.page;
    PageInside(pages, k);
    forall i | 0 <= i < |pages[k]| ensures Flatten(pages)[Offset(pages, k) + i] == pages[k][i] {
      assert Flatten(pages)[Offset(pages, k)..Offset(pages, k + 1)][i] == pages[k][i];
    }
  }

  lemma SegmentInWhole(f: Feed, j: nat)
    requires j < |f.segments|
    ensures f.Before(j) + f.Calls(j) == f.Before(j + 1) <= Whole(f)
  {
    BeforeIsPrefix(f, j + 1, |f.segments|);
  }

  lemma StartFacts(f: Feed, spot: Spot)
    requires f.HasPage(spot)
    ensures var page, next := f.PageAt(spot), spot.(page := spot.page + 1);
            && Start(f, spot) + |page| == (if f.HasPage(next) then Start(f, next) else |f.Before(spot.segment + 1)|) <= |Whole(f)|
            && forall i :: 0 <= i < |page| ==> Whole(f)[Start(f, spot) + i] == page[i]
  {
    PositionFacts(f, spot);
    SegmentInWhole(f, spot.segment);
    hide Position, Whole, Flatten, Feed.Before;
    var page, xs, n := f.PageAt(spot), f.Calls(spot.segment), |f.Before(spot.segment)|;
    forall i | 0 <= i < |page| ensures Whole(f)[Start(f, spot) + i] == page[i] {
      assert xs[Position(f, spot) + i] == (f.Before(spot.segment) + xs)[n + Position(f, spot) + i];
    }
  }

  /** Persisting the call at pos, already seen or not, leaves everything up to there screened. */
  lemma PersistKeepsScreened(f: Feed, known: set<string>, t: Tables, pos: nat, high: nat) returns (high': nat)
    requires ScreenedTo(f, known, t, high) && pos <= high && pos < |Whole(f)| && !Refuses(t.calls.Keys, Whole(f)[pos])
    ensures ScreenedTo(f, known, Persist(t, Whole(f)[pos]), high') && pos + 1 <= high' && high <= high'
  {
    hide Whole, Refuses, Accepts, Persist, Ids;
    var xs := Whole(f);
    OneMoreKey(t, xs[pos]);
    if pos < high {
      high' := high;
      assert xs[..high] == xs[..pos] + [xs[pos]] + xs[pos + 1..high];
      IdsOfConcat(xs[..pos] + [xs[pos]], xs[pos + 1..high]);
      IdsOfConcat(xs[..pos], [xs[pos]]);
      AcceptsOne({}, xs[pos]);
    } else {
      high' := high + 1;
      assert xs[..high'] == xs[..high] + [xs[high]];
      IdsOfConcat(xs[..high], [xs[high]]);
      AcceptsConcat(known, xs[..high], [xs[high]]);
      AcceptsOne(t.calls.Keys, xs[high]);
    }
  }

  lemma SaveComesTo(f: Feed, s: Sync, s': Sync, high: nat)
    requires ComesTo(f, s, high) && SavesCursor(f, s, s')
    ensures ComesTo(f, s', high)
  {
    var spot := s.phase.spot;
    StartFacts(f, spot);
    if s'.phase.PagesDone? {
      BeforeIsPrefix(f, 1, spot.segment + 1);
      FirstPages(f, spot.segment + 1);
      FirstPages(f, 0);
    }
  }

  lemma FirstPages(f: Feed, j: nat)
    requires f.Valid()
    ensures f.HasPage(FIRST) && Start(f, FIRST) == 0
    ensures j < |f.segments| ==> f.HasPage(Spot(j, 0)) && Start(f, Spot(j, 0)) == |f.Before(j)|
  {
    PositionFacts(f, FIRST);
    if j < |f.segments| { PositionFacts(f, Spot(j, 0)); }
  }

  lemma StepKeepsScreened(f: Feed, known: set<string>, s: Sync, s': Sync)
    requires Screened(f, known, s) && Next(f, s, s')
    ensures Screened(f, known, s')
  {
    hide ScreenedTo, Whole, Start, Persist, CreatesTranscript, Refuses;
    var high: nat :| ScreenedTo(f, known, s.tables, high) && ComesTo(f, s, high);
    if Persists(f, s, s') {
      var spot, i := s.phase.spot, s.phase.index;
      StartFacts(f, spot);
      var high' := PersistKeepsScreened(f, known, s.tables, Start(f, spot) + i, high);
      assert ComesTo(f, s', high');
    } else {
      if SavesCursor(f, s, s') {
        SaveComesTo(f, s, s', high);
      } else {
        FirstPages(f, 0);
      }
      assert ComesTo(f, s', high);
    }
  }

  lemma StartIsScreened(f: Feed, s: Sync)
    requires f.Valid() && s.cursor == FIRST && s.phase == Idle
    ensures Screened(f, s.tables.calls.Keys, s)
  {
    FirstPages(f, 0);
    assert Whole(f)[..0] == [];
    NoIds();
    assert ScreenedTo(f, s.tables.calls.Keys, s.tables, 0);
    assert ComesTo(f, s, 0);
  }

  lemma {:induction false} HistoryIsScreened(f: Feed, states: seq<Sync>, k: nat)
    requires f.Valid() && IsHistory(f, states) && k < |states|
    ensures Screened(f, states[0].tables.calls.Keys, states[k])
  {
    hide Screened, Next;
    if k == 0 {
      StartIsScreened(f, states[0]);
    } else {
      HistoryIsScreened(f, states, k - 1);
      StepKeepsScreened(f, states[0].tables.calls.Keys, states[k - 1], states[k - 1 + 1]);
    }
  }

  /** Whoever has come to the end of a segment has had no call up to there refused. */
  lemma AcceptedSoFar(f: Feed, known: set<string>, t: Tables, j: nat, high: nat)
    requires ScreenedTo(f, known, t, high) && j <= |f.segments| && |f.Before(j)| <= high
    ensures Accepts(known, f.Before(j))
  {
    hide Accepts;
    var xs, n := Whole(f), |f.Before(j)|;
    BeforeIsPrefix(f, j, |f.segments|);
    assert xs[..high] == f.Before(j) + xs[n..high];
    AcceptsConcat(known, f.Before(j), xs[n..high]);
  }

  // ----- the steps keep the sync on track -----

  /** At the first page of a segment the goal itself is on track. */
  lemma GoalFollows(f: Feed, goal: Tables, j: nat)
    requires f.Valid() && j < |f.segments|
    ensures f.HasPage(Spot(j, 0)) && Follows(f, goal, goal, Spot(j, 0), 0)
  {
    hide PersistAll, OnTrack;
    PositionFacts(f, Spot(j, 0));
    if AddsNothing(f, goal, j) { TrackStarts(goal, f.Calls(j), goal); }
  }

  lemma PersistKeepsResumable(f: Feed, goal: Tables, s: Sync, s': Sync)
    requires Resumable(f, goal, s) && Persists(f, s, s')
    ensures Resumable(f, goal, s')
  {
    hide OnTrack, Persist, CreatesTranscript, Flatten, Position, PersistAll, Refuses, AddsNothing;
    var spot, i := s.phase.spot, s.phase.index;
    if AddsNothing(f, goal, spot.segment) {
      PositionFacts(f, spot);
      PersistKeepsTrack(s.tables, f.Calls(spot.segment), Position(f, spot) + i, Position(f, spot), goal);
    }
  }

  /** Every segment that a run can get through, past all calls that may be refused, adds nothing to the goal. */
  ghost predicate NothingGetsThrough(f: Feed, known: set<string>, goal: Tables) {
    forall j: nat :: j < |f.segments| && Accepts(known, f.Before(j + 1)) ==> AddsNothing(f, goal, j)
  }

  /** A run that has reached the end of a segment was refused nothing. */
  lemma SegmentEndMeansAccepted(f: Feed, known: set<string>, s: Sync)
    requires Screened(f, known, s) && s.phase.At? && f.HasPage(s.phase.spot) && s.phase.index == |f.PageAt(s.phase.spot)|
    requires !f.HasPage(s.phase.spot.(page := s.phase.spot.page + 1))
    ensures Accepts(known, f.Before(s.phase.spot.segment + 1))
  {
    hide Accepts, ScreenedTo, Whole, Start;
    var high: nat :| ScreenedTo(f, known, s.tables, high) && ComesTo(f, s, high);
    StartFacts(f, s.phase.spot);
    AcceptedSoFar(f, known, s.tables, s.phase.spot.segment + 1, high);
  }

  lemma SaveKeepsResumable(f: Feed, known: set<string>, goal: Tables, s: Sync, s': Sync)
    requires Resumable(f, goal, s) && Screened(f, known, s) && NothingGetsThrough(f, known, goal) && SavesCursor(f, s, s')
    ensures Resumable(f, goal, s')
  {
    hide OnTrackAt, AddsNothing, Screened, Accepts, PersistAll, Flatten, Feed.Before;
    var spot := s.phase.spot;
    if s'.phase.At? {
      if AddsNothing(f, goal, spot.segment) { NextPageOnTrack(f, goal, s.tables, spot); }
    } else {
      SegmentEndMeansAccepted(f, known, s);
      SegmentEndsAtGoal(f, goal, s.tables, spot);
      GoalFollows(f, goal, 0);
      if spot.segment + 1 < |f.segments| { GoalFollows(f, goal, spot.segment + 1); }
    }
  }

  /** At the end of a page the sync is on track for the next one of the segment. */
  lemma NextPageOnTrack(f: Feed, goal: Tables, t: Tables, spot: Spot)
    requires f.HasPage(spot) && f.HasPage(spot.(page := spot.page + 1)) && OnTrackAt(f, goal, t, spot, |f.PageAt(spot)|)
    ensures OnTrackAt(f, goal, t, spot.(page := spot.page + 1), 0)
  {
    hide OnTrack, Position;
    PositionFacts(f, spot);
  }

  lemma SegmentEndsAtGoal(f: Feed, goal: Tables, t: Tables, spot: Spot)
    requires f.HasPage(spot) && !f.HasPage(spot.(page := spot.page + 1)) && OnTrackAt(f, goal, t, spot, |f.PageAt(spot)|)
    ensures t == goal
  {
    hide OnTrack, Position;
    PositionFacts(f, spot);
    TrackEnds(t, f.Calls(spot.segment), goal);
  }

  lemma StepKeepsResumable(f: Feed, known: set<string>, goal: Tables, s: Sync, s': Sync)
    requires Resumable(f, goal, s) && Screened(f, known, s) && NothingGetsThrough(f, known, goal) && Next(f, s, s')
    ensures Resumable(f, goal, s')
  {
    hide Screened, NothingGetsThrough, Follows, Persists, SavesCursor;
    if Persists(f, s, s') {
      PersistKeepsResumable(f, goal, s, s');
    } else if SavesCursor(f, s, s') {
      SaveKeepsResumable(f, known, goal, s, s');
    } else if Completes(s, s') {
      GoalFollows(f, goal, 0);
    } else if Begins(f, s, s') {
      assert Follows(f, goal, s'.tables, s'.cursor, 0);
    }
  }

  lemma StartIsResumable(f: Feed, s: Sync)
    requires f.Valid() && s.cursor == FIRST && s.phase == Idle
    ensures Resumable(f, Uninterrupted(s.tables, f), s)
  {
    hide PersistAll, OnTrack;
    TrackStarts(s.tables, f.Calls(0), Uninterrupted(s.tables, f));
    PositionFacts(f, FIRST);
  }

  lemma {:induction false} HistoryIsResumable(f: Feed, states: seq<Sync>, k: nat)
    requires f.Valid() && IsHistory(f, states) && k < |states|
    requires NothingGetsThrough(f, states[0].tables.calls.Keys, Uninterrupted(states[0].tables, f))
    ensures Resumable(f, Uninterrupted(states[0].tables, f), states[k])
  {
    hide Resumable, Next, NothingGetsThrough, Screened, Uninterrupted;
    if k == 0 {
      StartIsResumable(f, states[0]);
    } else {
      HistoryIsResumable(f, states, k - 1);
      HistoryIsScreened(f, states, k - 1);
      StepKeepsResumable(f, states[0].tables.calls.Keys, Uninterrupted(states[0].tables, f), states[k - 1], states[k - 1 + 1]);
    }
  }

  /** A sync completes only if no call of its first segment is refused. */
  lemma CompletedMeansAccepted(f: Feed, states: seq<Sync>, k: nat)
    requires f.Valid() && IsHistory(f, states) && k < |states| && states[k].phase.Finished?
    ensures Accepts(states[0].tables.calls.Keys, f.Calls(0))
  {
    hide Accepts, ScreenedTo, Whole, Start, IsHistory;
    var known, s := states[0].tables.calls.Keys, states[k];
    HistoryIsScreened(f, states, k);
    var high: nat :| ScreenedTo(f, known, s.tables, high) && ComesTo(f, s, high);
    AcceptedSoFar(f, known, s.tables, 1, high);
    BeforeOne(f);
  }

  lemma BeforeOne(f: Feed)
    requires f.Valid()
    ensures f.Before(1) == f.Calls(0)
  {
    assert f.Before(1) == f.Before(0) + f.Calls(0);
  }

  lemma FirstAddsNothing(f: Feed, t: Tables)
    requires f.Valid()
    ensures AddsNothing(f, Uninterrupted(t, f), 0)
  {
    SecondPassIsIdle(t, f.Calls(0));
  }

  /**
   However often a sync is cut off and resumed, once it completes its tables are those of one uninterrupted
   pass, and that pass would have been refused nothing.
   */
  lemma InterruptionsLeaveNoTrace(f: Feed, states: seq<Sync>, k: nat)
    requires f.Valid() && |f.segments| == 1 && IsHistory(f, states) && k < |states| && states[k].phase.Finished?
    ensures states[k].tables == Uninterrupted(states[0].tables, f)
    ensures Accepts(states[0].tables.calls.Keys, f.Calls(0))
  {
    hide IsHistory, AddsNothing, Uninterrupted, Accepts;
    FirstAddsNothing(f, states[0].tables);
    HistoryIsResumable(f, states, k);
    CompletedMeansAccepted(f, states, k);
  }

  // ----- exactly when interruptions leave no trace -----

  ghost predicate IsPath(f: Feed, states: seq<Sync>) {
    states != [] && forall i :: 0 <= i < |states| - 1 ==> Next(f, states[i], states[i + 1])
  }

  function Last(states: seq<Sync>): Sync
    requires states != []
  {
    states[|states| - 1]
  }

  lemma Joined(f: Feed, a: seq<Sync>, b: seq<Sync>)
    requires IsPath(f, a) && IsPath(f, b) && Next(f, Last(a), b[0])
    ensures a + b != [] && IsPath(f, a + b) && Last(a + b) == Last(b)
  {
  }

  lemma FlattenHead(pages: seq<seq<NormalizedCall>>)
    requires pages != []
    ensures Flatten(pages) == pages[0] + Flatten(pages[1..])
  {
    assert pages == [pages[0]] + pages[1..];
    FlattenConcat([pages[0]], pages[1..]);
    OnePage(pages[0]);
  }

  /** Without interruption a page is persisted up to its end or its first refused call. */
  lemma {:induction false} RunPage(f: Feed, s: Sync) returns (path: seq<Sync>)
    requires s.phase.At? && f.HasPage(s.phase.spot) && s.phase.index <= |f.PageAt(s.phase.spot)| && s.pending.None?
    ensures var rest := f.PageAt(s.phase.spot)[s.phase.index..];
            var m := Taken(s.tables.calls.Keys, rest);
            && path != [] && IsPath(f, path) && path[0] == s
            && Last(path) == s.(tables := PersistAll(s.tables, rest[..m]), queue := s.queue + Queued(s.tables, rest[..m]),
                                phase := At(s.phase.spot, s.phase.index + m))
    decreases |f.PageAt(s.phase.spot)| - s.phase.index
  {
    hide Persist, CreatesTranscript, Refuses, Taken, Queued, PersistAll, Ids;
    var spot, i := s.phase.spot, s.phase.index;
    var page := f.PageAt(spot);
    var rest := page[i..];
    if i == |page| {
      NothingTakenOrQueued(s.tables);
      path := [s];
    } else {
      assert rest[0] == page[i] && rest[1..] == page[i + 1..];
      TakenFromHead(s.tables, rest);
      if Refuses(s.tables.calls.Keys, page[i]) {
        NothingTakenOrQueued(s.tables);
        path := [s];
      } else {
        var pending := if CreatesTranscript(s.tables, page[i]) then Some(page[i].externalId) else None;
        var s1 := s.(tables := Persist(s.tables, page[i]), phase := At(spot, i + 1), pending := pending);
        assert Persists(f, s, s1);
        if pending.None? {
          var tail := RunPage(f, s1);
          Joined(f, [s], tail);
          path := [s] + tail;
        } else {
          var s2 := s1.(pending := None, queue := s.queue + [pending.value]);
          assert Enqueues(s1, s2);
          var tail := RunPage(f, s2);
          Joined(f, [s1], tail);
          Joined(f, [s], [s1] + tail);
          path := [s] + ([s1] + tail);
        }
      }
    }
  }

  /** How a run of a segment from the given page ends: all of it persisted, or stopped at its first refused call. */
  ghost predicate EndsSegment(f: Feed, s: Sync, spot: Spot, s': Sync)
    requires f.HasPage(spot)
  {
    var pages := f.segments[spot.segment][spot.page..];
    var rest := Flatten(pages);
    var m := Taken(s.tables.calls.Keys, rest);
    && s'.tables == PersistAll(s.tables, rest[..m]) && s'.queue == s.queue + Queued(s.tables, rest[..m]) && s'.pending == None
    && if m == |rest| then s'.phase == PagesDone && s'.cursor == f.After(spot.segment)
       else && s'.phase.At? && s'.phase.spot == s'.cursor && s'.cursor.segment == spot.segment && f.HasPage(s'.cursor)
            && spot.page <= s'.cursor.page && s'.phase.index < |f.PageAt(s'.cursor)|
            && Offset(pages, s'.cursor.page - spot.page) + s'.phase.index == m
            && Refuses(s'.tables.calls.Keys, f.PageAt(s'.cursor)[s'.phase.index])
  }

  /** Without interruption a segment is persisted to its end or its first refused call. */
  lemma {:induction false} RunSegment(f: Feed, s: Sync) returns (path: seq<Sync>)
    requires s.phase.At? && s.phase.spot == s.cursor && f.HasPage(s.cursor) && s.phase.index == 0 && s.pending.None?
    ensures path != [] && IsPath(f, path) && path[0] == s && EndsSegment(f, s, s.cursor, Last(path))
    decreases |f.segments[s.cursor.segment]| - s.cursor.page
  {
    hide PersistAll, IsPath, Flatten, Ids, Taken, Queued, Refuses, Persist, EndsSegment;
    var spot, page := s.cursor, f.PageAt(s.cursor);
    var m := Taken(s.tables.calls.Keys, page);
    assert page[0..] == page;
    path := RunPage(f, s);
    var s1 := Last(path);
    if m < |page| {
      StopsInPage(f, s, s1);
    } else {
      assert page[..m] == page;
      var next := spot.(page := spot.page + 1);
      if f.HasPage(next) {
        var s2 := s1.(cursor := next, phase := At(next, 0));
        assert SavesCursor(f, s1, s2);
        var tail := RunSegment(f, s2);
        LaterPages(f, s, s2, Last(tail));
        Joined(f, path, tail);
        path := path + tail;
      } else {
        var s2 := s1.(cursor := f.After(spot.segment), phase := PagesDone);
        assert SavesCursor(f, s1, s2);
        LastPage(f, s, s2);
        OneState(f, s2);
        Joined(f, path, [s2]);
        path := path + [s2];
      }
    }
  }

  /** Stopping in the first of the pages is stopping in all of them. */
  lemma StopsInPage(f: Feed, s: Sync, s': Sync)
    requires f.HasPage(s.cursor) && s.pending.None?
    requires var page := f.PageAt(s.cursor);
             var m := Taken(s.tables.calls.Keys, page);
             && m < |page|
             && s' == s.(tables := PersistAll(s.tables, page[..m]), queue := s.queue + Queued(s.tables, page[..m]), phase := At(s.cursor, m))
    ensures EndsSegment(f, s, s.cursor, s')
  {
    hide PersistAll, Flatten, Ids, Taken, Queued, Refuses;
    var pages, page := f.segments[s.cursor.segment][s.cursor.page..], f.PageAt(s.cursor);
    var m := Taken(s.tables.calls.Keys, page);
    assert pages[0] == page && pages[..0] == [];
    FlattenHead(pages);
    NoPages();
    TakenConcat(s.tables.calls.Keys, page, Flatten(pages[1..]));
    assert Flatten(pages)[..m] == page[..m];
    TakenUpToRefusal(s.tables.calls.Keys, page);
    KeysAfterAll(s.tables, page[..m]);
  }

  lemma NoPages()
    ensures Flatten([]) == []
  {
  }

  lemma LastPage(f: Feed, s: Sync, s': Sync)
    requires f.HasPage(s.cursor) && s.pending.None? && !f.HasPage(s.cursor.(page := s.cursor.page + 1))
    requires var page := f.PageAt(s.cursor);
             && Taken(s.tables.calls.Keys, page) == |page|
             && s' == s.(tables := PersistAll(s.tables, page), queue := s.queue + Queued(s.tables, page), phase := PagesDone,
                         cursor := f.After(s.cursor.segment))
    ensures EndsSegment(f, s, s.cursor, s')
  {
    var pages, page := f.segments[s.cursor.segment][s.cursor.page..], f.PageAt(s.cursor);
    hide PersistAll, Flatten, Ids, Taken, Queued, Refuses;
    assert pages == [page];
    OnePage(page);
    assert page[..|page|] == page;
  }

  /** After a whole page, what the rest of the segment does is what all of it does. */
  lemma LaterPages(f: Feed, s: Sync, s2: Sync, s': Sync)
    requires f.HasPage(s.cursor) && f.HasPage(s.cursor.(page := s.cursor.page + 1))
    requires var page := f.PageAt(s.cursor);
             && Taken(s.tables.calls.Keys, page) == |page|
             && s2.tables == PersistAll(s.tables, page) && s2.queue == s.queue + Queued(s.tables, page)
    requires EndsSegment(f, s2, s.cursor.(page := s.cursor.page + 1), s')
    ensures EndsSegment(f, s, s.cursor, s')
  {
    hide PersistAll, Flatten, Ids, Taken, Queued, Refuses;
    var segment, k, page := f.segments[s.cursor.segment], s.cursor.page, f.PageAt(s.cursor);
    var pages, later := segment[k..], segment[k + 1..];
    var m := Taken(s2.tables.calls.Keys, Flatten(later));
    assert pages[0] == page && pages[1..] == later;
    FlattenHead(pages);
    KeysAfterAll(s.tables, page);
    TakenConcat(s.tables.calls.Keys, page, Flatten(later));
    assert Flatten(pages)[..|page| + m] == page + Flatten(later)[..m];
    PersistAllConcat(s.tables, page, Flatten(later)[..m]);
    QueuedConcat(s.tables, page, Flatten(later)[..m]);
    if m < |Flatten(later)| {
      var l := s'.cursor.page - (k + 1);
      FlattenHead(pages[..l + 1]);
      assert pages[..l + 1][0] == page && pages[..l + 1][1..] == later[..l];
    }
  }

  /** From the start the sync runs through the first segment and, cut off each time before it completes, through any later one. */
  lemma {:induction false} RunsThrough(f: Feed, t: Tables, j: nat) returns (states: seq<Sync>)
    requires f.Valid() && j < |f.segments| && Accepts(t.calls.Keys, f.Before(j + 1))
    ensures states != [] && IsPath(f, states) && states[0] == Sync(t, FIRST, Idle, None, [])
    ensures Last(states).phase == PagesDone && Last(states).pending == None && Last(states).cursor == f.After(j)
    ensures Last(states).tables == PersistAll(t, f.Before(j + 1))
    decreases j
  {
    hide PersistAll, Flatten, IsPath, Accepts, Next, EndsSegment;
    var upto, xs := f.Before(j), f.Calls(j);
    AcceptsConcat(t.calls.Keys, upto, xs);
    PersistAllConcat(t, upto, xs);
    KeysAfterAll(t, upto);
    var head: seq<Sync>;
    var s: Sync;
    if j == 0 {
      s := Sync(t, FIRST, Idle, None, []);
      head := [s];
      OneState(f, s);
      NothingPersisted(t);
    } else {
      head := RunsThrough(f, t, j - 1);
      s := Last(head).(phase := Idle);
      CutOff(f, Last(head), s);
      OneState(f, s);
      Joined(f, head, [s]);
      head := head + [s];
    }
    assert s.cursor == Spot(j, 0) && s.tables == PersistAll(t, upto);
    var s1 := s.(phase := At(s.cursor, 0));
    Starts(f, s, s1);
    var tail := RunSegment(f, s1);
    WholeSegment(f, s1, j, Last(tail));
    Joined(f, head, tail);
    states := head + tail;
  }

  lemma NothingPersisted(t: Tables)
    ensures PersistAll(t, []) == t
  {
  }

  lemma CutOff(f: Feed, s: Sync, s': Sync)
    requires s.phase.PagesDone? && s.pending.None? && s' == s.(phase := Idle)
    ensures Next(f, s, s')
  {
    assert Crashes(s, s');
  }

  lemma Starts(f: Feed, s: Sync, s': Sync)
    requires s.phase.Idle? && f.HasPage(s.cursor) && s' == s.(phase := At(s.cursor, 0))
    ensures Next(f, s, s')
  {
    assert Begins(f, s, s');
  }

  /** Where no call of the segment is refused, all of it is persisted. */
  lemma WholeSegment(f: Feed, s: Sync, j: nat, s': Sync)
    requires f.HasPage(Spot(j, 0)) && EndsSegment(f, s, Spot(j, 0), s') && Accepts(s.tables.calls.Keys, f.Calls(j))
    ensures s'.phase == PagesDone && s'.cursor == f.After(j) && s'.tables == PersistAll(s.tables, f.Calls(j)) && s'.pending == None
  {
    hide PersistAll, Flatten, Accepts, Taken, Queued;
    assert f.segments[j][0..] == f.segments[j];
    TakenUpToRefusal(s.tables.calls.Keys, f.Calls(j));
    assert f.Calls(j)[..|f.Calls(j)|] == f.Calls(j);
  }

  /** Whatever segments a run can get through, some history completes after exactly those. */
  lemma CompletesAfter(f: Feed, t: Tables, j: nat) returns (states: seq<Sync>)
    requires f.Valid() && j < |f.segments| && Accepts(t.calls.Keys, f.Before(j + 1))
    ensures IsHistory(f, states) && states != [] && states[0].tables == t && Last(states).phase.Finished?
    ensures Last(states).tables == PersistAll(t, f.Before(j + 1))
  {
    hide IsPath, PersistAll, Accepts;
    var main := RunsThrough(f, t, j);
    var s := Last(main).(cursor := FIRST, phase := Finished);
    assert Completes(Last(main), s);
    OneState(f, s);
    Joined(f, main, [s]);
    states := main + [s];
    PathIsHistory(f, states);
  }

  /** A sync can complete exactly when no call of its first segment is refused. */
  lemma CompletesIffAccepted(f: Feed, t: Tables)
    requires f.Valid()
    ensures Accepts(t.calls.Keys, f.Calls(0)) <==>
            exists states: seq<Sync>, k: nat :: IsHistory(f, states) && k < |states| && states[0].tables == t && states[k].phase.Finished?
  {
    BeforeOne(f);
    hide Accepts;
    if Accepts(t.calls.Keys, f.Calls(0)) {
      var states := CompletesAfter(f, t, 0);
      var k: nat := |states| - 1;
      assert states[k] == Last(states);
    } else {
      forall states: seq<Sync>, k: nat | IsHistory(f, states) && k < |states| && states[0].tables == t ensures !states[k].phase.Finished? {
        if states[k].phase.Finished? { CompletedMeansAccepted(f, states, k); }
      }
    }
  }

  /** A new call that lists an email twice: no sync of it ever completes. */
  lemma RepeatedEmailStopsSync(t: Tables, c: NormalizedCall, states: seq<Sync>, k: nat)
    requires c.externalId !in t.calls && EmailsClash(c.participants)
    requires IsHistory(Feed([[[c]]]), states) && states[0].tables == t && k < |states|
    ensures !states[k].phase.Finished?
  {
    var f := Feed([[[c]]]);
    OnePage([c]);
    AcceptsOne(t.calls.Keys, c);
    CompletesIffAccepted(f, t);
  }

  const CALL_TWICE := NormalizedCall("c", None, None, None, 0, [Participant(Some("x"), None, true), Participant(Some("x"), None, false)], None)

  /** For instance a call whose host is listed once more. */
  lemma OneCallStopsSync(states: seq<Sync>, k: nat)
    requires IsHistory(Feed([[[CALL_TWICE]]]), states) && states[0].tables == EMPTY && k < |states|
    ensures !states[k].phase.Finished?
  {
    assert CALL_TWICE.participants[0].email == CALL_TWICE.participants[1].email;
    RepeatedEmailStopsSync(EMPTY, CALL_TWICE, states, k);
  }

  /** A provider that hands out a cursor with its last page: one crash before completion, and call b is read as well. */
  lemma LeftoverCursorReadsOn(t: Tables, a: NormalizedCall, b: NormalizedCall) returns (states: seq<Sync>)
    requires b.externalId !in t.calls && a.externalId != b.externalId
    requires !EmailsClash(a.participants) && !EmailsClash(b.participants)
    ensures IsHistory(Feed([[[a]], [[b]]]), states) && states[0].tables == t && Last(states).phase.Finished?
    ensures b.externalId in Last(states).tables.calls && b.externalId !in Uninterrupted(t, Feed([[[a]], [[b]]])).calls
  {
    hide PersistAll, IsHistory, Ids, EmailsClash, Accepts, Flatten;
    var f := Feed([[[a]], [[b]]]);
    OnePage([a]);
    OnePage([b]);
    assert f.Calls(0) == [a] && f.Calls(1) == [b];
    BeforeOne(f);
    assert f.Before(1 + 1) == [a] + [b];
    AcceptsConcat(t.calls.Keys, [a], [b]);
    AcceptsOne(t.calls.Keys, a);
    AcceptsOne(t.calls.Keys + Ids([a]), b);
    states := CompletesAfter(f, t, 1);
    KeysAfterAll(t, [a]);
    KeysAfterAll(t, [a] + [b]);
    IdsOfConcat([a], [b]);
  }

  const CALL_A := NormalizedCall("a", None, None, None, 0, [], None)
  const CALL_B := NormalizedCall("b", None, None, None, 0, [], None)
  const EMPTY := Tables(map[], map[], map[])

  /** For instance with two bare calls and empty tables. */
  lemma OneCrashReadsOn() returns (f: Feed, states: seq<Sync>)
    ensures f.Valid() && IsHistory(f, states) && states[0].tables == EMPTY && Last(states).phase.Finished?
    ensures Last(states).tables != Uninterrupted(EMPTY, f)
  {
    f := Feed([[[CALL_A]], [[CALL_B]]]);
    states := LeftoverCursorReadsOn(EMPTY, CALL_A, CALL_B);
  }

  lemma OneState(f: Feed, s: Sync)
    ensures IsPath(f, [s])
  {
  }

  lemma PathIsHistory(f: Feed, states: seq<Sync>)
    requires IsPath(f, states) && states[0].cursor == FIRST && states[0].phase == Idle && states[0].pending == None
    ensures IsHistory(f, states)
  {
  }

  /** Every history that completes from these tables leaves what one uninterrupted pass leaves. */
  ghost predicate AlwaysEndsAsOnePass(f: Feed, t: Tables)
    requires f.Valid()
  {
    forall states: seq<Sync>, k: nat :: IsHistory(f, states) && k < |states| && states[0].tables == t && states[k].phase.Finished? ==>
      states[k].tables == Uninterrupted(t, f)
  }

  /**
   Every call of the segment has an id known before the sync or served by the first segment, and the last non-null
   title, recording and duration it is given are the last ones given by the first segment, or else those known before.
   */
  ghost predicate AllServedBefore(f: Feed, t: Tables, j: nat)
    requires f.Valid() && j < |f.segments|
  {
    var pages, beyond := f.Calls(0), f.Calls(j);
    forall i :: 0 <= i < |beyond| ==>
      var id := beyond[i].externalId;
      (id in t.calls || id in Ids(pages)) && Confirms(Given(beyond, id), Overlay(Given(pages, id), Recorded(t, id)))
  }

  lemma AddsNothingOnInputs(f: Feed, t: Tables, j: nat)
    requires f.Valid() && j < |f.segments|
    ensures AddsNothing(f, Uninterrupted(t, f), j) <==> AllServedBefore(f, t, j)
  {
    hide PersistAll, Flatten, Confirms, Given, Recorded, Overlay, Ids;
    var goal, pages, beyond := Uninterrupted(t, f), f.Calls(0), f.Calls(j);
    IdlePass(goal, beyond);
    KeysAfterAll(t, pages);
    forall i | 0 <= i < |beyond|
      ensures Recorded(goal, beyond[i].externalId) == Overlay(Given(pages, beyond[i].externalId), Recorded(t, beyond[i].externalId))
    {
      DetailsAfterAll(t, pages, beyond[i].externalId);
    }
  }

  /** If every history ends as one pass, a segment that a run can get through adds nothing. */
  lemma ExactlyOnePass(f: Feed, t: Tables, j: nat)
    requires f.Valid() && AlwaysEndsAsOnePass(f, t) && j < |f.segments| && Accepts(t.calls.Keys, f.Before(j + 1))
    ensures AddsNothing(f, Uninterrupted(t, f), j)
  {
    hide Accepts, IsHistory, PersistAll, Flatten, Uninterrupted;
    if j == 0 {
      FirstAddsNothing(f, t);
    } else {
      AcceptsConcat(t.calls.Keys, f.Before(j), f.Calls(j));
      OneHistory(f, t, j - 1);
      OneHistory(f, t, j);
      PersistAllConcat(t, f.Before(j), f.Calls(j));
    }
  }

  lemma OneHistory(f: Feed, t: Tables, j: nat)
    requires f.Valid() && AlwaysEndsAsOnePass(f, t) && j < |f.segments| && Accepts(t.calls.Keys, f.Before(j + 1))
    ensures PersistAll(t, f.Before(j + 1)) == Uninterrupted(t, f)
  {
    hide Accepts, IsHistory, PersistAll, Uninterrupted;
    var states := CompletesAfter(f, t, j);
    var k: nat := |states| - 1;
    assert states[k] == Last(states);
  }

  /**
   Interruptions never leave a trace exactly when every later segment adds nothing to the first one, except those that
   no run gets through because a call up to their end is refused.
   */
  lemma ResumeIsExact(f: Feed, t: Tables)
    requires f.Valid()
    ensures AlwaysEndsAsOnePass(f, t) <==>
            forall j: nat :: 0 < j < |f.segments| && Accepts(t.calls.Keys, f.Before(j + 1)) ==> AllServedBefore(f, t, j)
  {
    hide Accepts, AllServedBefore, AddsNothing, Uninterrupted, IsHistory;
    var goal := Uninterrupted(t, f);
    FirstAddsNothing(f, t);
    forall j: nat | j < |f.segments| ensures AddsNothing(f, goal, j) <==> AllServedBefore(f, t, j) { AddsNothingOnInputs(f, t, j); }
    if AlwaysEndsAsOnePass(f, t) {
      forall j: nat | 0 < j < |f.segments| && Accepts(t.calls.Keys, f.Before(j + 1)) ensures AllServedBefore(f, t, j) {
        ExactlyOnePass(f, t, j);
      }
    }
    if forall j: nat :: 0 < j < |f.segments| && Accepts(t.calls.Keys, f.Before(j + 1)) ==> AllServedBefore(f, t, j) {
      forall j: nat | j < |f.segments| && Accepts(t.calls.Keys, f.Before(j + 1)) ensures AddsNothing(f, goal, j) {}
      forall states: seq<Sync>, k: nat | IsHistory(f, states) && k < |states| && states[0].tables == t && states[k].phase.Finished?
        ensures states[k].tables == goal
      {
        HistoryIsResumable(f, states, k);
      }
    }
  }

  // ----- one transcript, at most one enqueue -----

  ghost predicate QueuedOnce(s: Sync) {
    && s.tables.transcripts.Keys <= s.tables.calls.Keys
    && (forall i, j :: 0 <= i < j < |s.queue| ==> s.queue[i] != s.queue[j])
    && (forall i :: 0 <= i < |s.queue| ==> s.queue[i] in s.tables.transcripts)
    && (s.pending.Some? ==> s.pending.value in s.tables.transcripts && s.pending.value !in s.queue)
  }

  lemma StepKeepsQueuedOnce(f: Feed, s: Sync, s': Sync)
    requires QueuedOnce(s) && Next(f, s, s')
    ensures QueuedOnce(s')
    ensures forall id :: id in s.tables.transcripts ==> id in s'.tables.transcripts && s'.tables.transcripts[id] == s.tables.transcripts[id]
  {
  }

  /** A completed sync is started again. */
  ghost predicate StartsOver(s: Sync, s': Sync) {
    s.phase.Finished? && s' == s.(phase := Idle)
  }

  /** Any number of syncs, one after another, each cut off and resumed any number of times, while the provider's pages change. */
  ghost predicate IsLongHistory(feeds: seq<Feed>, states: seq<Sync>) {
    && |states| == |feeds| + 1
    && (forall i :: 0 <= i < |feeds| ==> Next(feeds[i], states[i], states[i + 1]) || StartsOver(states[i], states[i + 1]))
  }

  /**
   Over every chain of syncs, whatever the provider serves at each step: no call is queued twice, only calls with
   a transcript are queued, and a transcript once written is never written again.
   */
  lemma {:induction false} EveryCallQueuedAtMostOnce(feeds: seq<Feed>, states: seq<Sync>, k: nat)
    requires IsLongHistory(feeds, states) && QueuedOnce(states[0]) && k < |states|
    ensures QueuedOnce(states[k])
    ensures forall id :: id in states[0].tables.transcripts ==>
              id in states[k].tables.transcripts && states[k].tables.transcripts[id] == states[0].tables.transcripts[id]
  {
    hide QueuedOnce, Next, StartsOver;
    if k > 0 {
      EveryCallQueuedAtMostOnce(feeds, states, k - 1);
      var s, s' := states[k - 1], states[k - 1 + 1];
      if Next(feeds[k - 1], s, s') {
        StepKeepsQueuedOnce(feeds[k - 1], s, s');
      } else {
        StartingOverKeepsQueuedOnce(s, s');
      }
    }
  }

  lemma StartingOverKeepsQueuedOnce(s: Sync, s': Sync)
    requires QueuedOnce(s) && StartsOver(s, s')
    ensures QueuedOnce(s') && s'.tables == s.tables
  {
  }
}
