/**
 The sync engine itself (src/integrations/sync-engine.ts): one uninterrupted run over a provider's pages.
 */
module CallSyncEngine {
  import opened Options
  import opened CallTables
  import opened CallSync

  datatype Page = Page(data: seq<NormalizedCall>, nextCursor: Option<string>, hasMore: bool)

  /** A provider answers a cursor; a null or empty cursor asks for the first page. */
  type Provider = Option<string> -> Page

  function Fetch(provider: Provider, cursor: Option<string>): Page {
    provider(if Truthy(cursor) then cursor else None)
  }

  predicate Continues(page: Page) {
    page.hasMore && Truthy(page.nextCursor)
  }

  /** From this cursor the provider stops after at most n more pages. */
  ghost predicate Ends(provider: Provider, cursor: Option<string>, n: nat)
    decreases n
  {
    Continues(Fetch(provider, cursor)) ==> n > 0 && Ends(provider, Fetch(provider, cursor).nextCursor, n - 1)
  }

  ghost function PagesFrom(provider: Provider, cursor: Option<string>, n: nat): seq<seq<NormalizedCall>>
    requires Ends(provider, cursor, n)
    decreases n
  {
    var page := Fetch(provider, cursor);
    if Continues(page) then [page.data] + PagesFrom(provider, page.nextCursor, n - 1) else [page.data]
  }

  /** The cursor stored after k pages. */
  ghost function CursorAfter(provider: Provider, cursor: Option<string>, k: nat): Option<string> {
    if k == 0 then cursor else Fetch(provider, CursorAfter(provider, cursor, k - 1)).nextCursor
  }

  /**
   The pages are those the stored cursors lead to, one after another: each but the last says there is more and hands out
   a cursor that is not empty, and the last one does not.
   */
  lemma {:induction false} PagesAreChained(provider: Provider, cursor: Option<string>, n: nat, k: nat)
    requires Ends(provider, cursor, n) && k < |PagesFrom(provider, cursor, n)|
    ensures var pages, page := PagesFrom(provider, cursor, n), Fetch(provider, CursorAfter(provider, cursor, k));
            && pages[k] == page.data
            && (k + 1 < |pages| <==> page.hasMore && page.nextCursor.Some? && page.nextCursor.value != "")
    decreases n
  {
    if k > 0 {
      var page := Fetch(provider, cursor);
      PagesAreChained(provider, page.nextCursor, n - 1, k - 1);
      CursorOfTail(provider, cursor, k);
    }
  }

  lemma {:induction false} CursorOfTail(provider: Provider, cursor: Option<string>, k: nat)
    requires k > 0
    ensures CursorAfter(provider, cursor, k) == CursorAfter(provider, Fetch(provider, cursor).nextCursor, k - 1)
  {
    if k > 1 { CursorOfTail(provider, cursor, k - 1); }
  }

  /** A cursor that is null or empty asks for the first page, any other one for itself. */
  lemma EmptyCursorAsksForTheFirst(provider: Provider, cursor: Option<string>)
    ensures Fetch(provider, cursor) == provider(if cursor == None || cursor == Some("") then None else cursor)
  {
  }

  /** What a run reads and leaves in the database and the queue. */
  datatype Saved = Saved(tables: Tables, cursor: Option<string>, queue: seq<string>)

  /**
   One run from the stored cursor; None if a refused call ended it.  Everything before that call is persisted, and then
   the stored cursor leads to the page that holds it.
   */
  ghost predicate RunLeaves(provider: Provider, n: nat, before: Saved, after: Saved, totalSynced: Option<nat>)
    requires Ends(provider, before.cursor, n)
  {
    var pages := PagesFrom(provider, before.cursor, n);
    var xs := Flatten(pages);
    var m := Taken(before.tables.calls.Keys, xs);
    && after.tables == PersistAll(before.tables, xs[..m])
    && after.queue == before.queue + Queued(before.tables, xs[..m])
    && (totalSynced.Some? <==> m == |xs|)
    && (totalSynced.Some? ==> totalSynced.value == |xs| && after.cursor == None)
    && (totalSynced.None? ==>
          exists k :: 0 <= k < |pages| && after.cursor == CursorAfter(provider, before.cursor, k)
                      && Offset(pages, k) <= m < Offset(pages, k + 1))
  }

  class Engine {
    var tables: Tables
    var syncCursor: Option<string>
    var lastSyncAt: Option<int>
    var queue: seq<string>

    function View(): Saved
      reads this
    {
      Saved(tables, syncCursor, queue)
    }

    /** False if the transaction is refused, which ends the sync with an error. */
    method PersistCall(c: NormalizedCall) returns (ok: bool)
      modifies this`tables, this`queue
      ensures ok <==> !Refuses(old(tables).calls.Keys, c)
      ensures ok ==> tables == Persist(old(tables), c)
                     && queue == old(queue) + (if CreatesTranscript(old(tables), c) then [c.externalId] else [])
      ensures !ok ==> tables == old(tables) && queue == old(queue)
      ensures ok && c.externalId !in old(tables).calls ==> StoredAt(old(tables), tables, c)
      ensures ok && c.externalId in old(tables).calls ==> KeptAt(old(tables), tables, c.externalId)
    {
      var id := c.externalId;
      var tx, hasTranscript := tables, false;
      if id in tables.calls {
        tx := tx.(calls := tx.calls[id := Refreshed(tx.calls[id], c)]);
      } else {
        tx := tx.(calls := tx.calls[id := CallRow(c.title, c.recordingUrl, c.duration, c.occurredAt)]);
        if |c.participants| > 0 {
          if EmailsClash(c.participants) { return false; }
          tx := tx.(participants := tx.participants[id := c.participants]);
        }
        if Truthy(c.transcript) {
          tx := tx.(transcripts := tx.transcripts[id := c.transcript.value]);
          hasTranscript := true;
        }
      }
      tables := tx;
      if hasTranscript {
        queue := queue + [id];
      }
      ok := true;
    }

    /** Persists a page in order up to the first refused call. */
    method PersistPage(data: seq<NormalizedCall>) returns (ok: bool)
      modifies this`tables, this`queue
      ensures var m := Taken(old(tables).calls.Keys, data);
              && (ok <==> m == |data|)
              && tables == PersistAll(old(tables), data[..m])
              && queue == old(queue) + Queued(old(tables), data[..m])
    {
      hide Persist, CreatesTranscript, Refuses, Taken, PersistAll, Queued, Ids;
      ghost var t0 := tables;
      NothingTaken(t0);
      for i := 0 to |data|
        invariant Taken(t0.calls.Keys, data[..i]) == i
        invariant tables == PersistAll(t0, data[..i])
        invariant queue == old(queue) + Queued(t0, data[..i])
      {
        OneMoreCall(t0, data[..i], data[i]);
        OneMoreTaken(t0.calls.Keys, data[..i], data[i]);
        KeysAfterAll(t0, data[..i]);
        assert data[..i + 1] == data[..i] + [data[i]];
        var persisted := PersistCall(data[i]);
        if !persisted {
          TakenConcat(t0.calls.Keys, data[..i + 1], data[i + 1..]);
          assert data == data[..i + 1] + data[i + 1..];
          return false;
        }
      }
      assert data[..|data|] == data;
      ok := true;
    }

    method SyncCallRecordingProvider(provider: Provider, now: int, ghost n: nat) returns (totalSynced: Option<nat>)
      requires Ends(provider, syncCursor, n)
      modifies this
      ensures RunLeaves(provider, n, old(View()), View(), totalSynced)
      ensures lastSyncAt == if totalSynced.Some? then Some(now) else old(lastSyncAt)
    {
      hide PersistAll, Queued, Flatten, Truthy, Taken, Ids, Refuses, Offset, RunLeaves, Ends, PagesFrom, CursorAfter, Fetch;
      ghost var before, pages := View(), PagesFrom(provider, syncCursor, n);
      ghost var t0 := tables;
      ghost var read, left: nat := [], n;
      var cursor, hasMore, total := syncCursor, true, 0;
      NothingRead(t0);
      assert CursorAfter(provider, before.cursor, 0) == before.cursor by { FirstCursor(provider, before.cursor); }
      while hasMore
        invariant hasMore ==> Ends(provider, cursor, left) && pages == read + PagesFrom(provider, cursor, left)
        invariant !hasMore ==> pages == read
        invariant tables == PersistAll(t0, Flatten(read)) && queue == before.queue + Queued(t0, Flatten(read))
        invariant Taken(t0.calls.Keys, Flatten(read)) == |Flatten(read)| == total
        invariant cursor == syncCursor == CursorAfter(provider, before.cursor, |read|) && lastSyncAt == old(lastSyncAt)
        decreases hasMore, left
      {
        var result := Fetch(provider, cursor);
        NextPage(provider, cursor, left);
        OneMoreCursor(provider, before.cursor, |read|);
        ghost var rest := PagesFrom(provider, cursor, left)[1..];
        assert pages == read + [result.data] + rest;
        var ok := PersistPage(result.data);
        if !ok {
          RunStops(provider, n, before, View(), read, result.data, rest);
          return None;
        }
        PageTaken(t0, read, result.data, rest);
        assert result.data[..|result.data|] == result.data;
        total := total + |result.data|;
        OneMorePage(t0, read, result.data);
        read := read + [result.data];
        cursor := result.nextCursor;
        hasMore := result.hasMore && Truthy(cursor);
        left := if hasMore then left - 1 else left;
        syncCursor := cursor;
      }
      lastSyncAt, syncCursor := Some(now), None;
      RunEnds(provider, n, before, View(), total);
      totalSynced := Some(total);
    }
  }

  lemma NextPage(provider: Provider, cursor: Option<string>, n: nat)
    requires Ends(provider, cursor, n)
    ensures var page := Fetch(provider, cursor);
            if Continues(page) then
              && n > 0 && Ends(provider, page.nextCursor, n - 1)
              && PagesFrom(provider, cursor, n) == [page.data] + PagesFrom(provider, page.nextCursor, n - 1)
            else PagesFrom(provider, cursor, n) == [page.data]
  {
  }

  lemma FirstCursor(provider: Provider, cursor: Option<string>)
    ensures CursorAfter(provider, cursor, 0) == cursor
  {
  }

  lemma OneMoreCursor(provider: Provider, cursor: Option<string>, k: nat)
    ensures CursorAfter(provider, cursor, k + 1) == Fetch(provider, CursorAfter(provider, cursor, k)).nextCursor
  {
  }

  lemma RunEnds(provider: Provider, n: nat, before: Saved, after: Saved, total: nat)
    requires Ends(provider, before.cursor, n) && after.cursor == None
    requires var xs := Flatten(PagesFrom(provider, before.cursor, n));
             && Taken(before.tables.calls.Keys, xs) == |xs| == total
             && after.tables == PersistAll(before.tables, xs) && after.queue == before.queue + Queued(before.tables, xs)
    ensures RunLeaves(provider, n, before, after, Some(total))
  {
    hide PersistAll, Queued, Flatten, Taken, PagesFrom;
    var xs := Flatten(PagesFrom(provider, before.cursor, n));
    assert xs[..|xs|] == xs;
  }

  lemma RunStops(provider: Provider, n: nat, before: Saved, after: Saved, read: seq<seq<NormalizedCall>>, data: seq<NormalizedCall>,
                 rest: seq<seq<NormalizedCall>>)
    requires Ends(provider, before.cursor, n) && PagesFrom(provider, before.cursor, n) == read + [data] + rest
    requires Taken(before.tables.calls.Keys, Flatten(read)) == |Flatten(read)|
    requires var t1 := PersistAll(before.tables, Flatten(read));
             var m := Taken(t1.calls.Keys, data);
             && m < |data| && after.tables == PersistAll(t1, data[..m])
             && after.queue == before.queue + Queued(before.tables, Flatten(read)) + Queued(t1, data[..m])
    requires after.cursor == CursorAfter(provider, before.cursor, |read|)
    ensures RunLeaves(provider, n, before, after, None)
  {
    hide *;
    PageTaken(before.tables, read, data, rest);
    StopsAt(provider, n, before, after, |read|, read + [data] + rest);
  }

  lemma StopsAt(provider: Provider, n: nat, before: Saved, after: Saved, k: nat, pages: seq<seq<NormalizedCall>>)
    requires Ends(provider, before.cursor, n) && PagesFrom(provider, before.cursor, n) == pages && k < |pages|
    requires var xs := Flatten(pages);
             var m := Taken(before.tables.calls.Keys, xs);
             && m < |xs| && Offset(pages, k) <= m < Offset(pages, k + 1)
             && after.tables == PersistAll(before.tables, xs[..m]) && after.queue == before.queue + Queued(before.tables, xs[..m])
    requires after.cursor == CursorAfter(provider, before.cursor, k)
    ensures RunLeaves(provider, n, before, after, None)
  {
    hide PersistAll, Queued, Flatten, Taken, PagesFrom, CursorAfter, Offset, Ends;
  }

  lemma NothingTaken(t: Tables)
    ensures forall data: seq<NormalizedCall> :: Taken(t.calls.Keys, data[..0]) == 0
    ensures forall data: seq<NormalizedCall> :: PersistAll(t, data[..0]) == t && Queued(t, data[..0]) == []
  {
  }

  lemma NothingRead(t: Tables)
    ensures Flatten([]) == [] && PersistAll(t, []) == t && Queued(t, []) == [] && Taken(t.calls.Keys, []) == 0
  {
  }

  /** How far the pass gets with the page after those read. */
  lemma PageTaken(t: Tables, read: seq<seq<NormalizedCall>>, data: seq<NormalizedCall>, rest: seq<seq<NormalizedCall>>)
    requires Taken(t.calls.Keys, Flatten(read)) == |Flatten(read)|
    ensures var t1, xs := PersistAll(t, Flatten(read)), Flatten(read + [data] + rest);
            var m := Taken(t1.calls.Keys, data);
            && (m < |data| ==>
                 && Taken(t.calls.Keys, xs) == |Flatten(read)| + m < |xs|
                 && PersistAll(t, xs[..|Flatten(read)| + m]) == PersistAll(t1, data[..m])
                 && Queued(t, xs[..|Flatten(read)| + m]) == Queued(t, Flatten(read)) + Queued(t1, data[..m])
                 && Offset(read + [data] + rest, |read|) == |Flatten(read)|
                 && Offset(read + [data] + rest, |read| + 1) == |Flatten(read)| + |data|)
            && (m == |data| ==> Taken(t.calls.Keys, Flatten(read + [data])) == |Flatten(read + [data])|)
  {
    hide PersistAll, Queued, Taken, Ids, Flatten;
    var t1, before, xs := PersistAll(t, Flatten(read)), Flatten(read), Flatten(read + [data] + rest);
    var m := Taken(t1.calls.Keys, data);
    KeysAfterAll(t, before);
    OneMorePage(t, read, data);
    TakenConcat(t.calls.Keys, before, data);
    FlattenConcat(read + [data], rest);
    TakenConcat(t.calls.Keys, before + data, Flatten(rest));
    if m < |data| {
      assert xs[..|before| + m] == before + data[..m];
      PersistAllConcat(t, before, data[..m]);
      QueuedConcat(t, before, data[..m]);
      assert (read + [data] + rest)[..|read|] == read && (read + [data] + rest)[..|read| + 1] == read + [data];
    }
  }

  lemma OneMorePage(t: Tables, read: seq<seq<NormalizedCall>>, data: seq<NormalizedCall>)
    ensures Flatten(read + [data]) == Flatten(read) + data
    ensures PersistAll(t, Flatten(read + [data])) == PersistAll(PersistAll(t, Flatten(read)), data)
    ensures Queued(t, Flatten(read + [data])) == Queued(t, Flatten(read)) + Queued(PersistAll(t, Flatten(read)), data)
  {
    assert (read + [data])[..|read|] == read;
    PersistAllConcat(t, Flatten(read), data);
    QueuedConcat(t, Flatten(read), data);
  }

  // ----- the engine is the machine of the interruptions -----

  /** Both cursors ask for the same page. */
  predicate SamePage(a: Option<string>, b: Option<string>) {
    a == b || (!Truthy(a) && !Truthy(b))
  }

  ghost function NameOf(names: seq<seq<Option<string>>>, spot: Spot): Option<string> {
    if spot.segment < |names| && spot.page < |names[spot.segment]| then names[spot.segment][spot.page] else None
  }

  ghost predicate PageServed(provider: Provider, f: Feed, names: seq<seq<Option<string>>>, spot: Spot)
    requires f.HasPage(spot)
  {
    var page, next := Fetch(provider, NameOf(names, spot)), spot.(page := spot.page + 1);
    && page.data == f.PageAt(spot)
    && if f.HasPage(next) then Continues(page) && page.nextCursor == NameOf(names, next)
       else !Continues(page) && SamePage(page.nextCursor, NameOf(names, f.After(spot.segment)))
  }

  /** The feed is what the provider serves, names being the cursors that lead to its pages. */
  ghost predicate Serves(provider: Provider, f: Feed, names: seq<seq<Option<string>>>) {
    && f.Valid() && !Truthy(NameOf(names, FIRST))
    && forall spot: Spot :: f.HasPage(spot) ==> PageServed(provider, f, names, spot)
  }

  /** From the cursor of a page the engine reads the rest of its segment. */
  lemma {:induction false} PagesAreServed(provider: Provider, f: Feed, names: seq<seq<Option<string>>>, spot: Spot, cursor: Option<string>, n: nat)
    requires Serves(provider, f, names) && f.HasPage(spot) && SamePage(cursor, NameOf(names, spot)) && Ends(provider, cursor, n)
    ensures PagesFrom(provider, cursor, n) == f.segments[spot.segment][spot.page..]
    decreases n
  {
    hide Continues, Serves;
    ServedAt(provider, f, names, spot, cursor);
    var next, page, pages := spot.(page := spot.page + 1), Fetch(provider, cursor), f.segments[spot.segment];
    assert pages[spot.page..] == [page.data] + pages[spot.page + 1..];
    if f.HasPage(next) { PagesAreServed(provider, f, names, next, page.nextCursor, n - 1); }
  }

  lemma ServedAt(provider: Provider, f: Feed, names: seq<seq<Option<string>>>, spot: Spot, cursor: Option<string>)
    requires Serves(provider, f, names) && f.HasPage(spot) && SamePage(cursor, NameOf(names, spot))
    ensures var page, next := Fetch(provider, cursor), spot.(page := spot.page + 1);
            page.data == f.PageAt(spot) && (Continues(page) <==> f.HasPage(next)) && (f.HasPage(next) ==> page.nextCursor == NameOf(names, next))
  {
    hide Continues, NameOf;
    assert PageServed(provider, f, names, spot);
  }

  lemma {:induction false} CursorsAreServed(provider: Provider, f: Feed, names: seq<seq<Option<string>>>, spot: Spot, cursor: Option<string>, k: nat)
    requires Serves(provider, f, names) && f.HasPage(spot.(page := spot.page + k)) && SamePage(cursor, NameOf(names, spot))
    ensures SamePage(CursorAfter(provider, cursor, k), NameOf(names, spot.(page := spot.page + k)))
  {
    hide Continues, NameOf, Serves, Fetch;
    if k > 0 {
      var last := spot.(page := spot.page + (k - 1));
      assert last.(page := last.page + 1) == spot.(page := spot.page + k);
      CursorsAreServed(provider, f, names, spot, cursor, k - 1);
      ServedAt(provider, f, names, last, CursorAfter(provider, cursor, k - 1));
    }
  }

  lemma {:induction false} OffsetsAscend(pages: seq<seq<NormalizedCall>>, k: nat, l: nat)
    requires k <= l <= |pages|
    ensures Offset(pages, k) <= Offset(pages, l)
    decreases l
  {
    hide Offset;
    if k < l {
      OffsetsAscend(pages, k, l - 1);
      PageInside(pages, l - 1);
    }
  }

  /** The page in which a position lies is unique. */
  lemma SameOffset(pages: seq<seq<NormalizedCall>>, k: nat, l: nat, m: nat)
    requires k < |pages| && l < |pages|
    requires Offset(pages, k) <= m < Offset(pages, k + 1) && Offset(pages, l) <= m < Offset(pages, l + 1)
    ensures k == l
  {
    hide Offset;
    if k < l { OffsetsAscend(pages, k + 1, l); }
    if l < k { OffsetsAscend(pages, l + 1, k); }
  }

  /**
   Every run of the engine is a path of the machine: it starts where the stored cursor leads, and ends completed, or at
   the refused call, with the same tables, queue and cursor.
   */
  lemma RunIsAPath(provider: Provider, f: Feed, names: seq<seq<Option<string>>>, spot: Spot, n: nat, before: Saved, after: Saved,
                   totalSynced: Option<nat>) returns (path: seq<Sync>)
    requires Serves(provider, f, names) && f.HasPage(spot) && SamePage(before.cursor, NameOf(names, spot))
    requires Ends(provider, before.cursor, n) && RunLeaves(provider, n, before, after, totalSynced)
    ensures path != [] && IsPath(f, path) && path[0] == Sync(before.tables, spot, Idle, None, before.queue)
    ensures var s := Last(path);
            && s.tables == after.tables && s.queue == after.queue && s.pending == None && SamePage(after.cursor, NameOf(names, s.cursor))
            && (totalSynced.Some? ==> s.phase == Finished)
            && (totalSynced.None? ==>
                  && s.phase.At? && f.HasPage(s.phase.spot) && s.phase.index < |f.PageAt(s.phase.spot)|
                  && Refuses(s.tables.calls.Keys, f.PageAt(s.phase.spot)[s.phase.index]))
  {
    hide PersistAll, Queued, Taken, Refuses, Flatten, IsPath, Next, Serves, NameOf, SamePage, EndsSegment;
    var s0 := Sync(before.tables, spot, Idle, None, before.queue);
    var s1 := s0.(phase := At(spot, 0));
    Starts(f, s0, s1);
    OneState(f, s0);
    var main := RunSegment(f, s1);
    Joined(f, [s0], main);
    path := [s0] + main;
    PagesAreServed(provider, f, names, spot, before.cursor, n);
    var s2 := Last(main);
    SegmentEnd(provider, f, names, spot, n, before, after, totalSynced, s1, s2);
    if totalSynced.Some? {
      var s3 := s2.(cursor := FIRST, phase := Finished);
      CompletesNow(f, s2, s3);
      OneState(f, s3);
      Joined(f, path, [s3]);
      path := path + [s3];
      NullLeadsToFirst(provider, f, names);
    }
  }

  lemma CompletesNow(f: Feed, s: Sync, s': Sync)
    requires s.phase.PagesDone? && s' == s.(cursor := FIRST, phase := Finished)
    ensures Next(f, s, s')
  {
    assert Completes(s, s');
  }

  lemma NullLeadsToFirst(provider: Provider, f: Feed, names: seq<seq<Option<string>>>)
    requires Serves(provider, f, names)
    ensures SamePage(None, NameOf(names, FIRST))
  {
  }

  /** Where the machine's run of the segment ends is where the engine's run does. */
  lemma SegmentEnd(provider: Provider, f: Feed, names: seq<seq<Option<string>>>, spot: Spot, n: nat, before: Saved, after: Saved,
                   totalSynced: Option<nat>, s: Sync, s': Sync)
    requires Serves(provider, f, names) && f.HasPage(spot) && SamePage(before.cursor, NameOf(names, spot))
    requires Ends(provider, before.cursor, n) && RunLeaves(provider, n, before, after, totalSynced)
    requires PagesFrom(provider, before.cursor, n) == f.segments[spot.segment][spot.page..]
    requires s.tables == before.tables && s.queue == before.queue && EndsSegment(f, s, spot, s')
    ensures s'.tables == after.tables && s'.queue == after.queue && s'.pending == None
    ensures totalSynced.Some? ==> s'.phase == PagesDone && after.cursor == None
    ensures totalSynced.None? ==>
              && s'.phase.At? && f.HasPage(s'.phase.spot) && s'.phase.index < |f.PageAt(s'.phase.spot)|
              && s'.phase.spot == s'.cursor && SamePage(after.cursor, NameOf(names, s'.cursor))
              && Refuses(s'.tables.calls.Keys, f.PageAt(s'.phase.spot)[s'.phase.index])
  {
    hide PersistAll, Queued, Taken, Refuses, Flatten, Serves, NameOf, SamePage, Offset, Ends, CursorAfter, PagesFrom;
    var pages := f.segments[spot.segment][spot.page..];
    var m := Taken(before.tables.calls.Keys, Flatten(pages));
    if totalSynced.None? {
      var k :| 0 <= k < |pages| && after.cursor == CursorAfter(provider, before.cursor, k) && Offset(pages, k) <= m < Offset(pages, k + 1);
      StopsOnSamePage(provider, f, names, spot, before.cursor, k, s'.cursor, s'.phase.index, m);
    }
  }

  lemma StopsOnSamePage(provider: Provider, f: Feed, names: seq<seq<Option<string>>>, spot: Spot, cursor: Option<string>, k: nat,
                        stop: Spot, index: nat, m: nat)
    requires Serves(provider, f, names) && f.HasPage(spot) && SamePage(cursor, NameOf(names, spot))
    requires f.HasPage(stop) && stop.segment == spot.segment && spot.page <= stop.page && index < |f.PageAt(stop)|
    requires var pages := f.segments[spot.segment][spot.page..];
             && k < |pages| && Offset(pages, k) <= m < Offset(pages, k + 1)
             && Offset(pages, stop.page - spot.page) + index == m
    ensures SamePage(CursorAfter(provider, cursor, k), NameOf(names, stop))
  {
    hide Serves, NameOf, SamePage, Offset, CursorAfter;
    var pages, l := f.segments[spot.segment][spot.page..], stop.page - spot.page;
    PageInside(pages, l);
    assert pages[l] == f.PageAt(stop);
    SameOffset(pages, k, l, m);
    assert spot.(page := spot.page + k) == stop;
    CursorsAreServed(provider, f, names, spot, cursor, k);
  }
}
