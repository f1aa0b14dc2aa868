/**
 The integration-run ledger of src/integrations/sync-engine.ts: idempotency-keyed starts, finishes, and
 capped replays of failed runs.  Each ledger call is one atomic step; a caller that starts a run and is not
 told to skip holds it until it finishes it or dies.
 */
module IntegrationRuns {
  import opened Options

  datatype RunType = Scheduled | Manual | Backfill | Replay
  datatype Status = Running | Completed | Failed

  datatype Row = Row(org: string, key: string, runType: RunType, status: Status, startedAt: int, finishedAt: Option<int>,
                     processed: nat, succeeded: nat, failed: nat)

  /** Rows by run id, and the runs some caller is working on. */
  datatype Ledger = Ledger(rows: map<string, Row>, held: set<string>)

  const MAX_REPLAY_CAP := 20
  const DEFAULT_REPLAY_CAP := 3
  const MAX_REPLAY_WINDOW_HOURS := 720
  const DEFAULT_REPLAY_WINDOW_HOURS := 72

  /** A setting that is missing or not a number takes the default; otherwise it is floored and clamped. */
  function Setting(raw: Option<real>, high: nat, default: nat): (r: nat)
    requires 1 <= default <= high
    ensures 1 <= r <= high
    ensures raw.None? ==> r == default
    ensures raw.Some? ==> (r as real <= raw.value || r == 1) && (raw.value < r as real + 1.0 || r == high)
  {
    if raw.None? then default
    else
      var n := raw.value.Floor;
      if n < 1 then 1 else if n > high then high else n
  }

  /** Generated ids hold no colon, so a replay key names one source run. */
  predicate IsId(id: string) {
    forall i :: 0 <= i < |id| ==> id[i] != ':'
  }

  function ReplayPrefix(id: string): string {
    "replay:" + id + ":"
  }

  predicate StartsWith(s: string, prefix: string) {
    prefix <= s
  }

  ghost predicate HasKey(rows: map<string, Row>, org: string, key: string) {
    exists r :: r in rows && rows[r].org == org && rows[r].key == key
  }

  function ReplaysOf(rows: map<string, Row>, org: string, id: string): set<string> {
    set r | r in rows && rows[r].org == org && rows[r].runType == Replay && StartsWith(rows[r].key, ReplayPrefix(id))
  }

  // ----- steps -----

  datatype Started = Started(run: string, skipped: bool)

  /** Find by (organization, key): skip a completed or running row, restart a failed one, or create it. */
  ghost predicate Starts(l: Ledger, l': Ledger, org: string, key: string, runType: RunType, now: int, newId: string, out: Started) {
    if HasKey(l.rows, org, key) then
      && out.run in l.rows && l.rows[out.run].org == org && l.rows[out.run].key == key
      && out.skipped == (l.rows[out.run].status != Failed)
      && l' == if out.skipped then l
               else Ledger(l.rows[out.run := l.rows[out.run].(status := Running, startedAt := now, finishedAt := None,
                                                              processed := 0, succeeded := 0, failed := 0)],
                           l.held + {out.run})
    else
      && newId !in l.rows && IsId(newId) && out == Started(newId, false)
      && l' == Ledger(l.rows[newId := Row(org, key, runType, Running, now, None, 0, 0, 0)], l.held + {newId})
  }

  ghost predicate Finishes(l: Ledger, l': Ledger, run: string, status: Status, now: int, processed: nat, succeeded: nat, failed: nat) {
    && run in l.held && run in l.rows && status != Running
    && l' == Ledger(l.rows[run := l.rows[run].(status := status, finishedAt := Some(now), processed := processed,
                                               succeeded := succeeded, failed := failed)],
                    l.held - {run})
  }

  ghost predicate Dies(l: Ledger, l': Ledger, run: string) {
    l' == l.(held := l.held - {run})
  }

  /** The checks before a replay is started; hasConfig: the integration of the source run still exists. */
  predicate MayReplay(rows: map<string, Row>, org: string, source: string, hasConfig: bool, now: int, windowMs: int, cap: nat) {
    && source in rows && rows[source].org == org && hasConfig && rows[source].status == Failed
    && now - (if rows[source].finishedAt.Some? then rows[source].finishedAt.value else rows[source].startedAt) <= windowMs
    && |ReplaysOf(rows, org, source)| < cap
  }

  datatype Op =
    | StartRun(org: string, key: string, runType: RunType, now: int, newId: string, out: Started)
    | FinishRun(run: string, status: Status, now: int, processed: nat, succeeded: nat, failed: nat)
    | CallerDies(run: string)
    | ReplayRun(org: string, source: string, hasConfig: bool, stamp: string, now: int, windowMs: int, newId: string, out: Started)

  /** Only replays start runs of type Replay. */
  ghost predicate Step(l: Ledger, op: Op, l': Ledger, cap: nat) {
    match op
    case StartRun(org, key, runType, now, newId, out) => runType != Replay && Starts(l, l', org, key, runType, now, newId, out)
    case FinishRun(run, status, now, p, s, f) => Finishes(l, l', run, status, now, p, s, f)
    case CallerDies(run) => Dies(l, l', run)
    case ReplayRun(org, source, hasConfig, stamp, now, windowMs, newId, out) =>
      && MayReplay(l.rows, org, source, hasConfig, now, windowMs, cap)
      && Starts(l, l', org, ReplayPrefix(source) + stamp, Replay, now, newId, out)
  }

  // ----- what every run of steps keeps -----

  ghost predicate Sane(l: Ledger, cap: nat) {
    && (forall r, t :: r in l.rows && t in l.rows && l.rows[r].org == l.rows[t].org && l.rows[r].key == l.rows[t].key ==> r == t)
    && (forall r :: r in l.held ==> r in l.rows && l.rows[r].status == Running)
    && (forall r :: r in l.rows ==> IsId(r))
    && (forall org, id :: IsId(id) ==> |ReplaysOf(l.rows, org, id)| <= cap)
  }

  lemma PrefixNamesOneRun(id: string, stamp: string, id': string)
    requires IsId(id) && IsId(id') && StartsWith(ReplayPrefix(id) + stamp, ReplayPrefix(id'))
    ensures id == id'
  {
    var s, p := ReplayPrefix(id) + stamp, ReplayPrefix(id');
    var n, m := |id|, |id'|;
    assert |"replay:"| == 7;
    assert forall i :: 0 <= i < n ==> s[7 + i] == id[i];
    assert forall i :: 0 <= i < m ==> p[7 + i] == id'[i];
    assert s[7 + n] == ':' && p[7 + m] == ':';
    assert forall i :: 0 <= i < |p| ==> s[i] == p[i];
    assert n == m;
  }

  /** Changing a row without changing organization, type or key changes no replay count. */
  lemma SameReplays(rows: map<string, Row>, r: string, row: Row, org: string, id: string)
    requires r in rows && row.org == rows[r].org && row.runType == rows[r].runType && row.key == rows[r].key
    ensures ReplaysOf(rows[r := row], org, id) == ReplaysOf(rows, org, id)
  {
  }

  lemma NewRowReplays(rows: map<string, Row>, r: string, row: Row, org: string, id: string)
    requires r !in rows
    ensures ReplaysOf(rows[r := row], org, id) == ReplaysOf(rows, org, id)
              + (if row.org == org && row.runType == Replay && StartsWith(row.key, ReplayPrefix(id)) then {r} else {})
  {
  }

  lemma StartKeepsSane(l: Ledger, l': Ledger, org: string, key: string, runType: RunType, now: int, newId: string, out: Started, cap: nat)
    requires Sane(l, cap) && Starts(l, l', org, key, runType, now, newId, out)
    requires runType == Replay ==> forall id :: IsId(id) && StartsWith(key, ReplayPrefix(id)) ==> |ReplaysOf(l.rows, org, id)| < cap
    ensures Sane(l', cap)
  {
    forall o, id | IsId(id) ensures |ReplaysOf(l'.rows, o, id)| <= cap {
      assert |ReplaysOf(l.rows, o, id)| <= cap;
      if HasKey(l.rows, org, key) {
        if !out.skipped { SameReplays(l.rows, out.run, l'.rows[out.run], o, id); }
      } else {
        NewRowReplays(l.rows, newId, l'.rows[newId], o, id);
      }
    }
  }

  lemma StepKeepsSane(l: Ledger, op: Op, l': Ledger, cap: nat)
    requires Sane(l, cap) && Step(l, op, l', cap)
    ensures Sane(l', cap)
  {
    match op
    case StartRun(org, key, runType, now, newId, out) => StartKeepsSane(l, l', org, key, runType, now, newId, out, cap);
    case FinishRun(run, status, now, p, s, f) =>
      forall o, id | IsId(id) ensures |ReplaysOf(l'.rows, o, id)| <= cap { SameReplays(l.rows, run, l'.rows[run], o, id); }
    case CallerDies(run) =>
    case ReplayRun(org, source, hasConfig, stamp, now, windowMs, newId, out) =>
      var key := ReplayPrefix(source) + stamp;
      forall id | IsId(id) && StartsWith(key, ReplayPrefix(id)) ensures |ReplaysOf(l.rows, org, id)| < cap {
        PrefixNamesOneRun(source, stamp, id);
      }
      StartKeepsSane(l, l', org, key, Replay, now, newId, out, cap);
  }

  /** Completed, or left running by a caller that died: nobody holds the row and no start will take it. */
  ghost predicate Settled(l: Ledger, r: string) {
    r in l.rows && r !in l.held && l.rows[r].status != Failed
  }

  lemma StepKeepsRows(l: Ledger, op: Op, l': Ledger, cap: nat, r: string)
    requires Step(l, op, l', cap) && r in l.rows
    ensures r in l'.rows && l'.rows[r].org == l.rows[r].org && l'.rows[r].key == l.rows[r].key
    ensures Settled(l, r) ==> Settled(l', r) && l'.rows[r] == l.rows[r]
  {
  }

  /** Some step of the ledger changes the row. */
  ghost predicate CanChange(l: Ledger, r: string, cap: nat)
    requires r in l.rows
  {
    exists op, l' :: Step(l, op, l', cap) && r in l'.rows && l'.rows[r] != l.rows[r]
  }

  /** No step changes a row exactly when it is settled: a held row can be finished, and a failed one started again. */
  lemma SettledIffUnchangeable(l: Ledger, r: string, cap: nat)
    requires Sane(l, cap) && r in l.rows
    ensures Settled(l, r) <==> !CanChange(l, r, cap)
  {
    var row := l.rows[r];
    if Settled(l, r) {
      forall op, l' | Step(l, op, l', cap) ensures r in l'.rows && l'.rows[r] == row { StepKeepsRows(l, op, l', cap, r); }
    } else if r in l.held {
      var l' := Ledger(l.rows[r := row.(status := Completed, finishedAt := Some(0), processed := 0, succeeded := 0, failed := 0)], l.held - {r});
      assert Step(l, FinishRun(r, Completed, 0, 0, 0, 0), l', cap);
      assert l'.rows[r] != row;
    } else {
      var l' := Ledger(l.rows[r := row.(status := Running, startedAt := 0, finishedAt := None, processed := 0, succeeded := 0, failed := 0)],
                       l.held + {r});
      assert HasKey(l.rows, row.org, row.key);
      assert Step(l, StartRun(row.org, row.key, Scheduled, 0, "", Started(r, false)), l', cap);
      assert l'.rows[r] != row;
    }
  }

  ghost predicate IsRun(ledgers: seq<Ledger>, ops: seq<Op>, cap: nat) {
    && |ledgers| == |ops| + 1
    && (forall i :: 0 <= i < |ops| ==> Step(ledgers[i], ops[i], ledgers[i + 1], cap))
  }

  /** One row per (organization, key), held runs are running, and replays of one run never pass the cap. */
  lemma {:induction false} EveryRunStaysSane(ledgers: seq<Ledger>, ops: seq<Op>, cap: nat, k: nat)
    requires IsRun(ledgers, ops, cap) && Sane(ledgers[0], cap) && k < |ledgers|
    ensures Sane(ledgers[k], cap)
  {
    hide Sane, Step;
    if k > 0 {
      EveryRunStaysSane(ledgers, ops, cap, k - 1);
      StepKeepsSane(ledgers[k - 1], ops[k - 1], ledgers[k - 1 + 1], cap);
    }
  }

  /** No row disappears or changes its key, and a settled row never changes again. */
  lemma {:induction false} SettledRowsAreFinal(ledgers: seq<Ledger>, ops: seq<Op>, cap: nat, i: nat, k: nat, r: string)
    requires IsRun(ledgers, ops, cap) && i <= k < |ledgers| && r in ledgers[i].rows
    ensures r in ledgers[k].rows && ledgers[k].rows[r].org == ledgers[i].rows[r].org && ledgers[k].rows[r].key == ledgers[i].rows[r].key
    ensures Settled(ledgers[i], r) ==> Settled(ledgers[k], r) && ledgers[k].rows[r] == ledgers[i].rows[r]
    decreases k
  {
    hide Step, Settled;
    if i < k {
      SettledRowsAreFinal(ledgers, ops, cap, i, k - 1, r);
      StepKeepsRows(ledgers[k - 1], ops[k - 1], ledgers[k - 1 + 1], cap, r);
    }
  }

  /** In particular a completed row is never touched again. */
  lemma CompletedIsFinal(ledgers: seq<Ledger>, ops: seq<Op>, cap: nat, i: nat, k: nat, r: string)
    requires IsRun(ledgers, ops, cap) && Sane(ledgers[0], cap) && i <= k < |ledgers| && r in ledgers[i].rows
    requires ledgers[i].rows[r].status == Completed
    ensures r in ledgers[k].rows && ledgers[k].rows[r] == ledgers[i].rows[r]
  {
    hide Step;
    EveryRunStaysSane(ledgers, ops, cap, i);
    SettledRowsAreFinal(ledgers, ops, cap, i, k, r);
  }

  /** A caller that dies leaves its row running for good: the key is taken, and the next start with it is skipped. */
  lemma AbandonedRunKeepsItsKey() returns (ledgers: seq<Ledger>, ops: seq<Op>)
    ensures |ops| == 3 && IsRun(ledgers, ops, DEFAULT_REPLAY_CAP) && Sane(ledgers[0], DEFAULT_REPLAY_CAP)
    ensures Settled(ledgers[2], "run1") && ledgers[2].rows["run1"].status == Running
    ensures ops[0].StartRun? && ops[2].StartRun? && ops[2].key == ops[0].key && ops[2].out == Started("run1", true)
  {
    var row := Row("org", "key", Scheduled, Running, 0, None, 0, 0, 0);
    var none := Ledger(map[], {});
    var held := Ledger(map["run1" := row], {"run1"});
    var left := held.(held := {});
    ledgers := [none, held, left, left];
    ops := [StartRun("org", "key", Scheduled, 0, "run1", Started("run1", false)), CallerDies("run1"),
            StartRun("org", "key", Scheduled, 9, "run2", Started("run1", true))];
    assert HasKey(left.rows, "org", "key") by { assert left.rows["run1"] == row; }
    forall org, id | IsId(id) ensures |ReplaysOf(none.rows, org, id)| <= DEFAULT_REPLAY_CAP {
      assert ReplaysOf(none.rows, org, id) == {};
    }
    assert Step(none, ops[0], held, DEFAULT_REPLAY_CAP);
    assert Step(held, ops[1], left, DEFAULT_REPLAY_CAP);
    assert Step(left, ops[2], left, DEFAULT_REPLAY_CAP);
  }

  // ----- what a start does to the rows -----

  /** When the source run failed: its end, or its start if the end is not recorded. */
  function FailedAt(row: Row): (at: int)
    ensures row.finishedAt.Some? ==> row.finishedAt == Some(at)
    ensures row.finishedAt.None? ==> at == row.startedAt
  {
    if row.finishedAt.Some? then row.finishedAt.value else row.startedAt
  }

  ghost predicate OnlyRowChanged(before: map<string, Row>, after: map<string, Row>, r: string) {
    after.Keys == before.Keys + {r} && forall t :: t in before && t != r ==> after[t] == before[t]
  }

  /**
   A run with the key that is completed or running is left alone; a failed one is running again from now on, with its
   counts at zero; without one a new running row with the key is created.
   */
  ghost predicate StartedRows(before: map<string, Row>, after: map<string, Row>, org: string, key: string, runType: RunType, now: int, out: Started) {
    && OnlyRowChanged(before, after, out.run) && out.run in after
    && var row := after[out.run];
       && row.org == org && row.key == key
       && (out.skipped ==> out.run in before && before[out.run].status in {Completed, Running} && row == before[out.run])
       && (!out.skipped ==>
             && row.status == Running && row.startedAt == now && row.finishedAt == None
             && row.processed == 0 && row.succeeded == 0 && row.failed == 0
             && if out.run in before then before[out.run].status == Failed && row.runType == before[out.run].runType
                else row.runType == runType && forall r :: r in before ==> before[r].org != org || before[r].key != key)
  }

  lemma StartsRows(l: Ledger, l': Ledger, org: string, key: string, runType: RunType, now: int, newId: string, out: Started)
    requires Starts(l, l', org, key, runType, now, newId, out)
    ensures StartedRows(l.rows, l'.rows, org, key, runType, now, out)
    ensures l'.held == if out.skipped then l.held else l.held + {out.run}
  {
  }

  /** The replays of a run are the rows of type replay of its organization whose key names it. */
  lemma ReplaysByPrefix(rows: map<string, Row>, org: string, source: string)
    ensures ReplaysOf(rows, org, source)
            == set r | r in rows && rows[r].org == org && rows[r].runType == Replay && "replay:" + source + ":" <= rows[r].key
  {
  }

  // ----- the ledger object -----

  class RunLedger {
    var l: Ledger

    method StartIntegrationRun(org: string, key: string, runType: RunType, now: int, newId: string) returns (out: Started)
      requires newId !in l.rows && IsId(newId)
      modifies this
      ensures Starts(old(l), l, org, key, runType, now, newId, out)
      ensures StartedRows(old(l).rows, l.rows, org, key, runType, now, out)
      ensures l.held == if out.skipped then old(l).held else old(l).held + {out.run}
    {
      hide StartedRows;
      ghost var before := l;
      if r :| r in l.rows && l.rows[r].org == org && l.rows[r].key == key {
        if l.rows[r].status == Completed || l.rows[r].status == Running {
          out := Started(r, true);
          StartsRows(before, l, org, key, runType, now, newId, out);
          return;
        }
        var row := l.rows[r].(status := Running, startedAt := now, finishedAt := None, processed := 0, succeeded := 0, failed := 0);
        l := Ledger(l.rows[r := row], l.held + {r});
        out := Started(r, false);
        StartsRows(before, l, org, key, runType, now, newId, out);
        return;
      }
      l := Ledger(l.rows[newId := Row(org, key, runType, Running, now, None, 0, 0, 0)], l.held + {newId});
      out := Started(newId, false);
      StartsRows(before, l, org, key, runType, now, newId, out);
    }

    method FinishIntegrationRun(run: string, status: Status, now: int, processed: nat, succeeded: nat, failed: nat)
      requires run in l.held && run in l.rows && status != Running
      modifies this
      ensures Finishes(old(l), l, run, status, now, processed, succeeded, failed)
      ensures OnlyRowChanged(old(l).rows, l.rows, run) && run in l.rows && run !in l.held
      ensures var row, was := l.rows[run], old(l).rows[run];
              && row.status == status && row.finishedAt == Some(now) && row.startedAt == was.startedAt
              && row.processed == processed && row.succeeded == succeeded && row.failed == failed
              && row.org == was.org && row.key == was.key && row.runType == was.runType
    {
      var row := l.rows[run].(status := status, finishedAt := Some(now), processed := processed, succeeded := succeeded, failed := failed);
      l := Ledger(l.rows[run := row], l.held - {run});
    }

    /** Refused unless the run is a recent failure of the organization, its integration still exists, and it has replays left. */
    method ReplayFailedRun(source: string, org: string, hasConfig: bool, now: int, stamp: string, newId: string,
                           rawWindow: Option<real>, rawCap: Option<real>)
      returns (out: Option<Started>)
      requires newId !in l.rows && IsId(newId)
      modifies this
      ensures var windowMs := Setting(rawWindow, MAX_REPLAY_WINDOW_HOURS, DEFAULT_REPLAY_WINDOW_HOURS) * 60 * 60 * 1000;
              var cap := Setting(rawCap, MAX_REPLAY_CAP, DEFAULT_REPLAY_CAP);
              if out.Some? then Step(old(l), ReplayRun(org, source, hasConfig, stamp, now, windowMs, newId, out.value), l, cap)
              else l == old(l) && !MayReplay(l.rows, org, source, hasConfig, now, windowMs, cap)
      ensures out.Some? <==>
                && source in old(l).rows && old(l).rows[source].org == org && hasConfig && old(l).rows[source].status == Failed
                && now - FailedAt(old(l).rows[source]) <= Setting(rawWindow, 720, 72) * 3_600_000
                && |set r | r in old(l).rows && old(l).rows[r].org == org && old(l).rows[r].runType == Replay
                            && "replay:" + source + ":" <= old(l).rows[r].key| < Setting(rawCap, 20, 3)
      ensures out.Some? ==> StartedRows(old(l).rows, l.rows, org, "replay:" + source + ":" + stamp, Replay, now, out.value)
    {
      if source !in l.rows || l.rows[source].org != org || !hasConfig { return None; }
      var row := l.rows[source];
      if row.status != Failed { return None; }
      var windowMs := Setting(rawWindow, MAX_REPLAY_WINDOW_HOURS, DEFAULT_REPLAY_WINDOW_HOURS) * 60 * 60 * 1000;
      var cap := Setting(rawCap, MAX_REPLAY_CAP, DEFAULT_REPLAY_CAP);
      var reference := if row.finishedAt.Some? then row.finishedAt.value else row.startedAt;
      if now - reference > windowMs { return None; }
      var previous := |ReplaysOf(l.rows, org, source)|;
      ReplaysByPrefix(l.rows, org, source);
      if previous >= cap { return None; }
      var started := StartIntegrationRun(org, ReplayPrefix(source) + stamp, Replay, now, newId);
      out := Some(started);
    }
  }
}
