/**
 The call, participant and transcript tables of src/integrations/sync-engine.ts and the laws of persisting a
 call.  Tables hold the rows of one organization and provider, keyed by external call id.
 */
module CallTables {
  import opened Options

  datatype Participant = Participant(email: Option<string>, name: Option<string>, isHost: bool)

  datatype NormalizedCall = NormalizedCall(
    externalId: string, title: Option<string>, recordingUrl: Option<string>, duration: Option<int>,
    occurredAt: int, participants: seq<Participant>, transcript: Option<string>)

  datatype CallRow = CallRow(title: Option<string>, recordingUrl: Option<string>, duration: Option<int>, occurredAt: int)

  datatype Tables = Tables(calls: map<string, CallRow>, participants: map<string, seq<Participant>>, transcripts: map<string, string>)

  // ----- persisting one call -----

  function Newer<T>(x: Option<T>, stored: Option<T>): Option<T> {
    if x.Some? then x else stored
  }

  function Refreshed(row: CallRow, c: NormalizedCall): CallRow {
    row.(title := Newer(c.title, row.title), recordingUrl := Newer(c.recordingUrl, row.recordingUrl), duration := Newer(c.duration, row.duration))
  }

  function CallsAfter(calls: map<string, CallRow>, c: NormalizedCall): map<string, CallRow> {
    calls[c.externalId := if c.externalId in calls then Refreshed(calls[c.externalId], c)
                          else CallRow(c.title, c.recordingUrl, c.duration, c.occurredAt)]
  }

  function ParticipantsAfter(participants: map<string, seq<Participant>>, created: bool, c: NormalizedCall): map<string, seq<Participant>> {
    if created && c.participants != [] then participants[c.externalId := c.participants] else participants
  }

  function TranscriptsAfter(transcripts: map<string, string>, created: bool, c: NormalizedCall): map<string, string> {
    if created && Truthy(c.transcript) then transcripts[c.externalId := c.transcript.value] else transcripts
  }

  /** The transaction of persistCall: a known call is refreshed, a new one gets its row, participants and transcript. */
  function Persist(t: Tables, c: NormalizedCall): Tables {
    var created := c.externalId !in t.calls;
    Tables(CallsAfter(t.calls, c), ParticipantsAfter(t.participants, created, c), TranscriptsAfter(t.transcripts, created, c))
  }

  /** The transaction created a transcript, so the call has to be queued. */
  predicate CreatesTranscript(t: Tables, c: NormalizedCall) {
    Truthy(c.transcript) && c.externalId !in t.calls
  }

  ghost function PersistAll(t: Tables, xs: seq<NormalizedCall>): Tables
    decreases xs
  {
    if xs == [] then t else PersistAll(Persist(t, xs[0]), xs[1..])
  }

  lemma {:induction false} PersistAllConcat(t: Tables, xs: seq<NormalizedCall>, ys: seq<NormalizedCall>)
    ensures PersistAll(t, xs + ys) == PersistAll(PersistAll(t, xs), ys)
    decreases xs
  {
    hide Persist;
    if xs == [] {
      assert xs + ys == ys;
    } else {
      PersistAllConcat(Persist(t, xs[0]), xs[1..], ys);
      assert (xs + ys)[1..] == xs[1..] + ys;
    }
  }

  // ----- repeating a call changes nothing in the end -----

  predicate Agree<T(==)>(a: Option<T>, b: Option<T>, x: Option<T>) {
    a == b || x.Some?
  }

  /** The tables differ at most in fields of one call row, and only in fields that x will overwrite. */
  ghost predicate NearFor(t: Tables, u: Tables, x: NormalizedCall) {
    && t.participants == u.participants && t.transcripts == u.transcripts
    && x.externalId in t.calls && t.calls.Keys == u.calls.Keys
    && (forall id :: id in t.calls && id != x.externalId ==> t.calls[id] == u.calls[id])
    && var r, s := t.calls[x.externalId], u.calls[x.externalId];
       && Agree(r.title, s.title, x.title) && Agree(r.recordingUrl, s.recordingUrl, x.recordingUrl)
       && Agree(r.duration, s.duration, x.duration) && r.occurredAt == s.occurredAt
  }

  lemma NearStep(t: Tables, u: Tables, x: NormalizedCall, y: NormalizedCall)
    requires NearFor(t, u, x)
    ensures NearFor(Persist(t, y), Persist(u, y), x)
    ensures y == x ==> Persist(t, y) == Persist(u, y)
  {
  }

  lemma {:induction false} NearTablesMeet(t: Tables, u: Tables, x: NormalizedCall, ys: seq<NormalizedCall>)
    requires NearFor(t, u, x) && x in ys
    ensures PersistAll(t, ys) == PersistAll(u, ys)
    decreases ys
  {
    NearStep(t, u, x, ys[0]);
    if ys[0] != x { NearTablesMeet(Persist(t, ys[0]), Persist(u, ys[0]), x, ys[1..]); }
  }

  lemma PersistTwice(t: Tables, x: NormalizedCall)
    ensures Persist(Persist(t, x), x) == Persist(t, x)
  {
  }

  lemma PersistCommutes(t: Tables, x: NormalizedCall, y: NormalizedCall)
    requires x.externalId != y.externalId
    ensures Persist(Persist(t, x), y) == Persist(Persist(t, y), x)
  {
    hide CallsAfter, ParticipantsAfter, TranscriptsAfter;
    CallsCommute(t.calls, x, y);
    var newX, newY := x.externalId !in t.calls, y.externalId !in t.calls;
    RowsCommute(t.participants, t.transcripts, newX, x, newY, y);
  }

  lemma RowsCommute(ps: map<string, seq<Participant>>, ts: map<string, string>, newX: bool, x: NormalizedCall, newY: bool, y: NormalizedCall)
    requires x.externalId != y.externalId
    ensures ParticipantsAfter(ParticipantsAfter(ps, newX, x), newY, y) == ParticipantsAfter(ParticipantsAfter(ps, newY, y), newX, x)
    ensures TranscriptsAfter(TranscriptsAfter(ts, newX, x), newY, y) == TranscriptsAfter(TranscriptsAfter(ts, newY, y), newX, x)
  {
  }

  lemma CallsCommute(calls: map<string, CallRow>, x: NormalizedCall, y: NormalizedCall)
    requires x.externalId != y.externalId
    ensures CallsAfter(CallsAfter(calls, x), y) == CallsAfter(CallsAfter(calls, y), x)
    ensures y.externalId in CallsAfter(calls, x) <==> y.externalId in calls
    ensures x.externalId in CallsAfter(calls, y) <==> x.externalId in calls
  {
  }

  /** Persisting ys[k] ahead of the whole of ys is absorbed, if its id is known or ys[k] is where ys first has it. */
  lemma {:induction false} Absorbed(t: Tables, ys: seq<NormalizedCall>, k: nat)
    requires k < |ys|
    requires ys[k].externalId in t.calls || forall j :: 0 <= j < k ==> ys[j].externalId != ys[k].externalId
    ensures PersistAll(Persist(t, ys[k]), ys) == PersistAll(t, ys)
    decreases k
  {
    var x := ys[k];
    if x.externalId in t.calls {
      NearTablesMeet(Persist(t, x), t, x, ys);
    } else if k == 0 {
      PersistTwice(t, x);
    } else {
      PersistCommutes(t, x, ys[0]);
      Absorbed(Persist(t, ys[0]), ys[1..], k - 1);
    }
  }

  // ----- what the database refuses -----

  /** Two participants of one call with the same email: (callId, email) is unique, and nulls never clash. */
  predicate EmailsClash(ps: seq<Participant>) {
    exists i, j :: 0 <= i < j < |ps| && ps[i].email.Some? && ps[i].email == ps[j].email
  }

  /** The transaction is refused: participants are written only for a new call. */
  predicate Refuses(known: set<string>, c: NormalizedCall) {
    c.externalId !in known && EmailsClash(c.participants)
  }

  ghost function Ids(xs: seq<NormalizedCall>): set<string> {
    set i | 0 <= i < |xs| :: xs[i].externalId
  }

  /** No call is refused when xs are persisted in order. */
  ghost predicate Accepts(known: set<string>, xs: seq<NormalizedCall>) {
    forall k :: 0 <= k < |xs| ==> !Refuses(known + Ids(xs[..k]), xs[k])
  }

  lemma IdsOfConcat(xs: seq<NormalizedCall>, ys: seq<NormalizedCall>)
    ensures Ids(xs + ys) == Ids(xs) + Ids(ys)
  {
    var all := xs + ys;
    forall i | 0 <= i < |xs| ensures xs[i].externalId in Ids(all) { assert all[i] == xs[i]; }
    forall i | 0 <= i < |ys| ensures ys[i].externalId in Ids(all) { assert all[|xs| + i] == ys[i]; }
  }

  lemma AcceptsConcat(known: set<string>, xs: seq<NormalizedCall>, ys: seq<NormalizedCall>)
    ensures Accepts(known, xs + ys) <==> Accepts(known, xs) && Accepts(known + Ids(xs), ys)
  {
    hide Ids, Refuses;
    var all := xs + ys;
    forall k | 0 <= k < |xs| ensures all[k] == xs[k] && all[..k] == xs[..k] {}
    forall k | 0 <= k < |ys| ensures all[|xs| + k] == ys[k] && known + Ids(all[..|xs| + k]) == known + Ids(xs) + Ids(ys[..k]) {
      assert all[..|xs| + k] == xs + ys[..k];
      IdsOfConcat(xs, ys[..k]);
    }
    if Accepts(known, xs) && Accepts(known + Ids(xs), ys) {
      forall k | 0 <= k < |all| ensures !Refuses(known + Ids(all[..k]), all[k]) {
        if k >= |xs| {
          assert all[|xs| + (k - |xs|)] == ys[k - |xs|];
        }
      }
    }
  }

  lemma AcceptsOne(known: set<string>, c: NormalizedCall)
    ensures Accepts(known, [c]) <==> !Refuses(known, c)
    ensures Ids([c]) == {c.externalId}
  {
    assert Ids([]) == {} && known + {} == known;
    assert [c][..0] == [];
    assert [c][0] == c;
  }

  lemma {:induction false} KeysAfterAll(t: Tables, xs: seq<NormalizedCall>)
    ensures PersistAll(t, xs).calls.Keys == t.calls.Keys + Ids(xs)
    decreases xs
  {
    hide Ids, Persist;
    if xs == [] {
      assert Ids([]) == {} by { NoIds(); }
    } else {
      assert Persist(t, xs[0]).calls.Keys == t.calls.Keys + {xs[0].externalId} by { OneMoreKey(t, xs[0]); }
      KeysAfterAll(Persist(t, xs[0]), xs[1..]);
      assert xs == [xs[0]] + xs[1..];
      IdsOfConcat([xs[0]], xs[1..]);
      AcceptsOne({}, xs[0]);
    }
  }

  lemma NoIds()
    ensures Ids([]) == {}
  {
  }

  lemma OneMoreKey(t: Tables, c: NormalizedCall)
    ensures Persist(t, c).calls.Keys == t.calls.Keys + {c.externalId}
  {
  }

  // ----- what a row holds after any number of calls -----

  /** The columns a later sight of a call can fill or change. */
  datatype Details = Details(title: Option<string>, recordingUrl: Option<string>, duration: Option<int>)
  const NO_DETAILS := Details(None, None, None)

  function Overlay(d: Details, stored: Details): Details {
    Details(Newer(d.title, stored.title), Newer(d.recordingUrl, stored.recordingUrl), Newer(d.duration, stored.duration))
  }

  /** The last non-null value that xs gives each column of the call. */
  ghost function Given(xs: seq<NormalizedCall>, id: string): Details {
    if xs == [] then NO_DETAILS
    else
      var before, c := Given(xs[..|xs| - 1], id), xs[|xs| - 1];
      if c.externalId == id then Overlay(Details(c.title, c.recordingUrl, c.duration), before) else before
  }

  ghost function Recorded(t: Tables, id: string): Details {
    if id in t.calls then Details(t.calls[id].title, t.calls[id].recordingUrl, t.calls[id].duration) else NO_DETAILS
  }

  lemma PersistLast(t: Tables, xs: seq<NormalizedCall>)
    requires xs != []
    ensures PersistAll(t, xs) == Persist(PersistAll(t, xs[..|xs| - 1]), xs[|xs| - 1])
  {
    hide Persist;
    var init, last := xs[..|xs| - 1], xs[|xs| - 1];
    PersistAllConcat(t, init, [last]);
    assert xs == init + [last];
    assert PersistAll(PersistAll(t, init), [last]) == PersistAll(Persist(PersistAll(t, init), last), [last][1..]);
  }

  /** Each column holds the last non-null value given, or else what was stored before. */
  lemma {:induction false} DetailsAfterAll(t: Tables, xs: seq<NormalizedCall>, id: string)
    ensures Recorded(PersistAll(t, xs), id) == Overlay(Given(xs, id), Recorded(t, id))
    decreases |xs|
  {
    if xs != [] {
      DetailsAfterAll(t, xs[..|xs| - 1], id);
      PersistLast(t, xs);
    }
  }

  /** Calls that are all known change nothing but these columns. */
  lemma {:induction false} RestAfterAll(t: Tables, xs: seq<NormalizedCall>)
    requires Ids(xs) <= t.calls.Keys
    ensures var u := PersistAll(t, xs);
            && u.calls.Keys == t.calls.Keys && u.participants == t.participants && u.transcripts == t.transcripts
            && forall id :: id in t.calls ==> u.calls[id].occurredAt == t.calls[id].occurredAt
    decreases |xs|
  {
    if xs != [] {
      var init, last := xs[..|xs| - 1], xs[|xs| - 1];
      assert xs == init + [last];
      IdsOfConcat(init, [last]);
      AcceptsOne({}, last);
      RestAfterAll(t, init);
      PersistLast(t, xs);
    }
  }

  /** Everything given is there already. */
  predicate Confirms(d: Details, stored: Details) {
    && (d.title.Some? ==> d.title == stored.title)
    && (d.recordingUrl.Some? ==> d.recordingUrl == stored.recordingUrl)
    && (d.duration.Some? ==> d.duration == stored.duration)
  }

  lemma {:induction false} NothingGiven(xs: seq<NormalizedCall>, id: string)
    requires id !in Ids(xs)
    ensures Given(xs, id) == NO_DETAILS
  {
    if xs != [] {
      var init, last := xs[..|xs| - 1], xs[|xs| - 1];
      assert xs == init + [last];
      IdsOfConcat(init, [last]);
      AcceptsOne({}, last);
      NothingGiven(init, id);
    }
  }

  /** Every id is known, and every last non-null value is stored already. */
  ghost predicate AllConfirmed(t: Tables, xs: seq<NormalizedCall>) {
    forall i :: 0 <= i < |xs| ==> xs[i].externalId in t.calls && Confirms(Given(xs, xs[i].externalId), Recorded(t, xs[i].externalId))
  }

  lemma ConfirmedChangesNothing(t: Tables, xs: seq<NormalizedCall>)
    requires AllConfirmed(t, xs)
    ensures PersistAll(t, xs) == t
  {
    var u := PersistAll(t, xs);
    RestAfterAll(t, xs);
    forall id | id in t.calls ensures u.calls[id] == t.calls[id] {
      DetailsAfterAll(t, xs, id);
      if id !in Ids(xs) { NothingGiven(xs, id); }
      assert Recorded(u, id) == Recorded(t, id);
    }
  }

  /** Persisting xs changes nothing exactly when all of it is confirmed. */
  lemma IdlePass(t: Tables, xs: seq<NormalizedCall>)
    ensures PersistAll(t, xs) == t <==> AllConfirmed(t, xs)
  {
    if PersistAll(t, xs) == t {
      KeysAfterAll(t, xs);
      forall i | 0 <= i < |xs| ensures xs[i].externalId in t.calls && Confirms(Given(xs, xs[i].externalId), Recorded(t, xs[i].externalId)) {
        assert xs[i].externalId in Ids(xs);
        DetailsAfterAll(t, xs, xs[i].externalId);
      }
    }
    if AllConfirmed(t, xs) { ConfirmedChangesNothing(t, xs); }
  }

  // ----- what the first sight of a call leaves -----

  /** (callId, email) is unique among the participants; nulls never clash. */
  ghost predicate UniqueEmails(participants: map<string, seq<Participant>>) {
    forall id, i, j :: id in participants && 0 <= i < j < |participants[id]| && participants[id][i].email.Some? ==>
      participants[id][i].email != participants[id][j].email
  }

  /** A call is refused exactly when storing it would break that key. */
  lemma RefusedIffKeyBreaks(t: Tables, c: NormalizedCall)
    requires UniqueEmails(t.participants)
    ensures Refuses(t.calls.Keys, c) <==> !UniqueEmails(Persist(t, c).participants)
  {
    var after := Persist(t, c).participants;
    if Refuses(t.calls.Keys, c) {
      var i, j :| 0 <= i < j < |c.participants| && c.participants[i].email.Some? && c.participants[i].email == c.participants[j].email;
      assert c.externalId in after && after[c.externalId] == c.participants;
    }
  }

  /** Participants, transcript and date of a call are the same in both. */
  ghost predicate KeptAt(t: Tables, u: Tables, id: string) {
    && (id in t.calls ==> id in u.calls && u.calls[id].occurredAt == t.calls[id].occurredAt)
    && (id in u.participants <==> id in t.participants) && (id in t.participants ==> u.participants[id] == t.participants[id])
    && (id in u.transcripts <==> id in t.transcripts) && (id in t.transcripts ==> u.transcripts[id] == t.transcripts[id])
  }

  /** The call's own date, participants if it has any, and transcript if it has one that is not empty. */
  ghost predicate StoredAt(t: Tables, u: Tables, c: NormalizedCall) {
    var id := c.externalId;
    && id in u.calls && u.calls[id].occurredAt == c.occurredAt
    && (if |c.participants| > 0 then id in u.participants && u.participants[id] == c.participants
        else (id in u.participants <==> id in t.participants) && (id in t.participants ==> u.participants[id] == t.participants[id]))
    && (if c.transcript.Some? && c.transcript.value != "" then id in u.transcripts && u.transcripts[id] == c.transcript.value
        else (id in u.transcripts <==> id in t.transcripts) && (id in t.transcripts ==> u.transcripts[id] == t.transcripts[id]))
  }

  lemma OneCallStored(t: Tables, c: NormalizedCall, id: string)
    ensures id in t.calls || id != c.externalId ==> KeptAt(t, Persist(t, c), id)
    ensures c.externalId !in t.calls ==> StoredAt(t, Persist(t, c), c)
    ensures id in Persist(t, c).calls <==> id in t.calls || id == c.externalId
  {
  }

  /** A call that is known, or does not occur, keeps its date, participants and transcript. */
  lemma {:induction false} KnownCallIsKept(t: Tables, xs: seq<NormalizedCall>, id: string)
    requires id in t.calls || id !in Ids(xs)
    ensures KeptAt(t, PersistAll(t, xs), id)
    decreases |xs|
  {
    if xs != [] {
      hide Persist, PersistAll, KeptAt, StoredAt, Ids;
      var init, last := xs[..|xs| - 1], xs[|xs| - 1];
      assert xs == init + [last];
      IdsOfConcat(init, [last]);
      AcceptsOne({}, last);
      KnownCallIsKept(t, init, id);
      PersistLast(t, xs);
      KeysAfterAll(t, init);
      OneCallStored(PersistAll(t, init), last, id);
      KeptTwice(t, PersistAll(t, init), PersistAll(t, xs), id);
    }
  }

  lemma KeptTwice(t: Tables, u: Tables, v: Tables, id: string)
    requires KeptAt(t, u, id) && KeptAt(u, v, id)
    ensures KeptAt(t, v, id)
  {
  }

  lemma KeptThenStored(t: Tables, u: Tables, v: Tables, c: NormalizedCall)
    requires KeptAt(t, u, c.externalId) && StoredAt(u, v, c)
    ensures StoredAt(t, v, c)
  {
  }

  lemma StoredThenKept(t: Tables, u: Tables, v: Tables, c: NormalizedCall)
    requires StoredAt(t, u, c) && KeptAt(u, v, c.externalId)
    ensures StoredAt(t, v, c)
  {
  }

  /** xs[k] is where xs first has the call. */
  ghost predicate FirstSight(xs: seq<NormalizedCall>, k: nat, id: string) {
    k < |xs| && xs[k].externalId == id && id !in Ids(xs[..k])
  }

  /** A call that was not known is stored as it is first seen. */
  lemma NewCallIsStored(t: Tables, xs: seq<NormalizedCall>, k: nat)
    requires k < |xs| && FirstSight(xs, k, xs[k].externalId) && xs[k].externalId !in t.calls
    ensures StoredAt(t, PersistAll(t, xs), xs[k])
  {
    hide Persist, PersistAll, KeptAt, StoredAt, Ids;
    var c, before, later := xs[k], xs[..k], xs[k + 1..];
    assert xs == (before + [c]) + later;
    KnownCallIsKept(t, before, c.externalId);
    KeysAfterAll(t, before);
    OneMoreCallStored(t, before, c);
    KeysAfterAll(t, before + [c]);
    IdsOfConcat(before, [c]);
    AcceptsOne({}, c);
    KnownCallIsKept(PersistAll(t, before + [c]), later, c.externalId);
    PersistAllConcat(t, before + [c], later);
    StoredThenKept(t, PersistAll(t, before + [c]), PersistAll(t, xs), c);
  }

  lemma OneMoreCallStored(t: Tables, before: seq<NormalizedCall>, c: NormalizedCall)
    requires KeptAt(t, PersistAll(t, before), c.externalId) && c.externalId !in PersistAll(t, before).calls
    ensures StoredAt(t, PersistAll(t, before + [c]), c)
  {
    hide Persist, PersistAll, KeptAt, StoredAt;
    assert (before + [c])[..|before|] == before;
    PersistLast(t, before + [c]);
    OneCallStored(PersistAll(t, before), c, c.externalId);
    KeptThenStored(t, PersistAll(t, before), PersistAll(t, before + [c]), c);
  }

  // ----- what a pass queues -----

  /** The ids queued by persisting xs in order. */
  ghost function Queued(t: Tables, xs: seq<NormalizedCall>): seq<string>
    decreases xs
  {
    if xs == [] then []
    else
      var init, last := xs[..|xs| - 1], xs[|xs| - 1];
      Queued(t, init) + (if CreatesTranscript(PersistAll(t, init), last) then [last.externalId] else [])
  }

  lemma OneMoreCall(t: Tables, xs: seq<NormalizedCall>, c: NormalizedCall)
    ensures PersistAll(t, xs + [c]) == Persist(PersistAll(t, xs), c)
    ensures Queued(t, xs + [c]) == Queued(t, xs) + (if CreatesTranscript(PersistAll(t, xs), c) then [c.externalId] else [])
  {
    hide Persist, CreatesTranscript;
    PersistAllConcat(t, xs, [c]);
    assert PersistAll(PersistAll(t, xs), [c]) == PersistAll(Persist(PersistAll(t, xs), c), [c][1..]);
    assert (xs + [c])[..|xs|] == xs;
  }

  lemma {:induction false} QueuedConcat(t: Tables, xs: seq<NormalizedCall>, ys: seq<NormalizedCall>)
    ensures Queued(t, xs + ys) == Queued(t, xs) + Queued(PersistAll(t, xs), ys)
    decreases ys
  {
    hide PersistAll, CreatesTranscript;
    if ys == [] {
      assert xs + ys == xs;
    } else {
      var init, last, all := ys[..|ys| - 1], ys[|ys| - 1], xs + ys;
      QueuedConcat(t, xs, init);
      PersistAllConcat(t, xs, init);
      assert all[..|all| - 1] == xs + init && all[|all| - 1] == last;
      var tail := if CreatesTranscript(PersistAll(t, xs + init), last) then [last.externalId] else [];
      assert Queued(t, all) == Queued(t, xs + init) + tail;
      assert Queued(PersistAll(t, xs), ys) == Queued(PersistAll(t, xs), init) + tail;
    }
  }

  // ----- where a pass stops -----

  /** How many calls are persisted in order before the first refused one. */
  ghost function Taken(known: set<string>, xs: seq<NormalizedCall>): (n: nat)
    ensures n <= |xs|
  {
    if xs == [] then 0
    else
      var init := xs[..|xs| - 1];
      var n := Taken(known, init);
      if n < |init| || Refuses(known + Ids(init), xs[|xs| - 1]) then n else n + 1
  }

  /** All calls are taken exactly when none is refused, and otherwise the first one not taken is refused. */
  lemma {:induction false} TakenUpToRefusal(known: set<string>, xs: seq<NormalizedCall>)
    ensures var n := Taken(known, xs);
            && Accepts(known, xs[..n])
            && (n < |xs| ==> Refuses(known + Ids(xs[..n]), xs[n]))
            && (n == |xs| <==> Accepts(known, xs))
  {
    if xs == [] {
      assert Accepts(known, xs);
    } else {
      hide Refuses, Ids, Taken, Accepts;
      var init, last := xs[..|xs| - 1], xs[|xs| - 1];
      TakenUpToRefusal(known, init);
      assert xs == init + [last];
      AcceptsConcat(known, init, [last]);
      AcceptsOne(known + Ids(init), last);
      OneMoreTaken(known, init, last);
      TakenPrefix(init, last, Taken(known, init));
    }
  }

  lemma TakenPrefix(init: seq<NormalizedCall>, last: NormalizedCall, n: nat)
    requires n <= |init|
    ensures (init + [last])[..n] == init[..n] && init[..|init|] == init && (init + [last])[..|init| + 1] == init + [last]
    ensures (init + [last])[n] == if n < |init| then init[n] else last
  {
  }

  lemma {:induction false} TakenConcat(known: set<string>, xs: seq<NormalizedCall>, ys: seq<NormalizedCall>)
    ensures Taken(known, xs + ys) == if Taken(known, xs) < |xs| then Taken(known, xs) else |xs| + Taken(known + Ids(xs), ys)
    decreases |ys|
  {
    hide Refuses, Ids;
    if ys == [] {
      assert xs + ys == xs;
    } else {
      var init, last, all := ys[..|ys| - 1], ys[|ys| - 1], xs + ys;
      TakenConcat(known, xs, init);
      assert all[..|all| - 1] == xs + init && all[|all| - 1] == last;
      IdsOfConcat(xs, init);
      assert known + (Ids(xs) + Ids(init)) == known + Ids(xs) + Ids(init);
    }
  }

  lemma OneMoreTaken(known: set<string>, xs: seq<NormalizedCall>, c: NormalizedCall)
    ensures Taken(known, xs + [c])
            == if Taken(known, xs) < |xs| || Refuses(known + Ids(xs), c) then Taken(known, xs) else Taken(known, xs) + 1
  {
    assert (xs + [c])[..|xs|] == xs;
  }

  lemma NothingTakenOrQueued(t: Tables)
    ensures Taken(t.calls.Keys, []) == 0 && Queued(t, []) == [] && PersistAll(t, []) == t
    ensures forall xs: seq<NormalizedCall> :: xs[..0] == []
  {
  }

  /** What a pass does with its first call. */
  lemma TakenFromHead(t: Tables, xs: seq<NormalizedCall>)
    requires xs != []
    ensures var t1 := Persist(t, xs[0]);
            var m := Taken(t1.calls.Keys, xs[1..]);
            if Refuses(t.calls.Keys, xs[0]) then Taken(t.calls.Keys, xs) == 0
            else && Taken(t.calls.Keys, xs) == 1 + m
                 && PersistAll(t, xs[..1 + m]) == PersistAll(t1, xs[1..][..m])
                 && Queued(t, xs[..1 + m]) == (if CreatesTranscript(t, xs[0]) then [xs[0].externalId] else []) + Queued(t1, xs[1..][..m])
  {
    hide Refuses, Ids, Taken, Queued, PersistAll, Persist, CreatesTranscript;
    var known, c, m := t.calls.Keys, xs[0], Taken(Persist(t, xs[0]).calls.Keys, xs[1..]);
    assert xs == [c] + xs[1..];
    TakenConcat(known, [c], xs[1..]);
    FirstCall(t, c);
    OneMoreKey(t, c);
    if !Refuses(known, c) {
      assert xs[..1 + m] == [c] + xs[1..][..m];
      PersistAllConcat(t, [c], xs[1..][..m]);
      QueuedConcat(t, [c], xs[1..][..m]);
    }
  }

  lemma FirstCall(t: Tables, c: NormalizedCall)
    ensures Taken(t.calls.Keys, [c]) == (if Refuses(t.calls.Keys, c) then 0 else 1) && Ids([c]) == {c.externalId}
    ensures PersistAll(t, [c]) == Persist(t, c)
    ensures Queued(t, [c]) == if CreatesTranscript(t, c) then [c.externalId] else []
  {
    hide Refuses, Taken, Queued, PersistAll, Persist, CreatesTranscript;
    assert [] + [c] == [c];
    NothingTakenOrQueued(t);
    NoIds();
    assert t.calls.Keys + {} == t.calls.Keys;
    OneMoreTaken(t.calls.Keys, [], c);
    OneMoreCall(t, [], c);
    AcceptsOne(t.calls.Keys, c);
  }

  /** Queued are exactly the calls that were not known and are first seen with a transcript that is not empty. */
  lemma {:induction false} QueuedIffFirstSeenWithTranscript(t: Tables, xs: seq<NormalizedCall>, id: string)
    ensures id in Queued(t, xs) <==>
            id !in t.calls && exists k: nat :: FirstSight(xs, k, id) && xs[k].transcript.Some? && xs[k].transcript.value != ""
    decreases |xs|
  {
    hide Ids, PersistAll;
    if xs != [] {
      var n := |xs| - 1;
      var init, last := xs[..n], xs[n];
      QueuedIffFirstSeenWithTranscript(t, init, id);
      KeysAfterAll(t, init);
      assert xs == init + [last];
      assert id in Queued(t, xs) <==> id in Queued(t, init) || (CreatesTranscript(PersistAll(t, init), last) && last.externalId == id);
      forall k: nat | k < n ensures FirstSight(xs, k, id) <==> FirstSight(init, k, id) { assert xs[..k] == init[..k]; }
      assert FirstSight(xs, n, id) <==> last.externalId == id && id !in Ids(init);
      if id in Queued(t, init) {
        var k: nat :| FirstSight(init, k, id) && init[k].transcript.Some? && init[k].transcript.value != "";
        assert FirstSight(xs, k, id);
      }
    }
  }
}
