/**
 The in-memory circuit breaker and the failover client of src/services/ai-resilience.ts.
 Provider answers and clock readings are inputs.
 */
module CircuitBreaker {
  import opened Options

  datatype CircuitState = CircuitState(failures: nat, openUntil: int)
  const CLOSED := CircuitState(0, 0)

  datatype Settings = Settings(threshold: int, cooldownMs: int, maxAttempts: int) {
    /** The floors the client's constructor puts under its options. */
    predicate Valid() {
      threshold >= 1 && cooldownMs >= 5000 && maxAttempts >= 1
    }
  }

  function AtLeast(low: int, x: int): int {
    if x < low then low else x
  }

  function Given(x: Option<int>, default: int): int {
    if x.Some? then x.value else default
  }

  /** An option that is not given takes its default, and one below its floor the floor. */
  function MakeSettings(threshold: Option<int>, cooldownMs: Option<int>, maxAttempts: Option<int>): (s: Settings)
    ensures s.Valid()
    ensures threshold.None? ==> s.threshold == 3
    ensures cooldownMs.None? ==> s.cooldownMs == 60_000
    ensures maxAttempts.None? ==> s.maxAttempts == 2
    ensures threshold.Some? ==> s.threshold == threshold.value || (threshold.value < 1 == s.threshold)
    ensures cooldownMs.Some? ==> s.cooldownMs == cooldownMs.value || (cooldownMs.value < 5_000 == s.cooldownMs)
    ensures maxAttempts.Some? ==> s.maxAttempts == maxAttempts.value || (maxAttempts.value < 1 == s.maxAttempts)
  {
    Settings(AtLeast(1, Given(threshold, 3)), AtLeast(5000, Given(cooldownMs, 60_000)), AtLeast(1, Given(maxAttempts, 2)))
  }

  /** One answer of the primary provider, with the time it came. */
  datatype Answer = Succeeds(at: int) | Fails(at: int, transient: bool)

  // ----- the breaker as a function of one answer -----

  function Recorded(st: CircuitState, answer: Answer, s: Settings): CircuitState {
    match answer
    case Succeeds(_) => CLOSED
    case Fails(at, _) => CircuitState(st.failures + 1, if st.failures + 1 >= s.threshold then at + s.cooldownMs else st.openUntil)
  }

  function After(history: seq<Answer>, s: Settings): CircuitState {
    if history == [] then CLOSED else Recorded(After(history[..|history| - 1], s), history[|history| - 1], s)
  }

  /** tail is what came since the last success. */
  ghost predicate SinceLastSuccess(history: seq<Answer>, before: seq<Answer>, tail: seq<Answer>) {
    && history == before + tail
    && (before == [] || before[|before| - 1].Succeeds?)
    && (forall i :: 0 <= i < |tail| ==> tail[i].Fails?)
  }

  /** For every history the state is: failures since the last success, open for the cooldown after the latest of them. */
  lemma {:induction false} StateIsDeterminedByHistory(history: seq<Answer>, before: seq<Answer>, tail: seq<Answer>, s: Settings)
    requires s.Valid() && SinceLastSuccess(history, before, tail)
    ensures After(history, s).failures == |tail|
    ensures After(history, s).openUntil == if |tail| >= s.threshold then tail[|tail| - 1].at + s.cooldownMs else 0
    decreases |history|
  {
    if tail == [] {
      assert history == before;
    } else {
      var n := |history| - 1;
      assert history[n] == tail[|tail| - 1];
      assert history[..n] == before + tail[..|tail| - 1];
      StateIsDeterminedByHistory(history[..n], before, tail[..|tail| - 1], s);
    }
  }

  // ----- the client -----

  /** A request starts, and if the primary is asked, its answer arrives. */
  datatype Request = Request(start: int, answer: Answer)

  /** The breaker after one request of a client with a fallback. */
  function Served(st: CircuitState, r: Request, s: Settings): CircuitState {
    if st.openUntil > r.start then st else Recorded(st, r.answer, s)
  }

  datatype Reply = FromPrimary | FromFallback | Thrown

  function Outcome(answer: Answer, hasFallback: bool): Reply {
    if answer.Succeeds? then FromPrimary else if answer.transient && hasFallback then FromFallback else Thrown
  }

  lemma OneMoreAnswer(st: CircuitState, answers: seq<Answer>, i: nat, s: Settings)
    requires i < |answers|
    ensures RecordedAll(st, answers[..i + 1], s) == Recorded(RecordedAll(st, answers[..i], s), answers[i], s)
  {
    assert answers[..i + 1][..i] == answers[..i];
  }

  function RecordedAll(st: CircuitState, answers: seq<Answer>, s: Settings): CircuitState {
    if answers == [] then st else Recorded(RecordedAll(st, answers[..|answers| - 1], s), answers[|answers| - 1], s)
  }

  class Breakers {
    var states: map<string, CircuitState>

    function Get(key: string): CircuitState
      reads this
    {
      if key in states then states[key] else CLOSED
    }

    method StateFor(key: string) returns (st: CircuitState)
      modifies this
      ensures st == old(Get(key)) && states == old(states)[key := st]
    {
      if key !in states { states := states[key := CLOSED]; }
      st := states[key];
    }

    method RecordSuccess(key: string)
      modifies this
      ensures states == old(states)[key := CLOSED]
    {
      states := states[key := CircuitState(0, 0)];
    }

    method RecordFailure(key: string, s: Settings, now: int) returns (failures: nat)
      modifies this
      ensures forall transient :: states == old(states)[key := Recorded(old(Get(key)), Fails(now, transient), s)]
      ensures failures == old(Get(key)).failures + 1
    {
      var st := if key in states then states[key] else CLOSED;
      st := st.(failures := st.failures + 1);
      if st.failures >= s.threshold { st := st.(openUntil := now + s.cooldownMs); }
      states := states[key := st];
      failures := st.failures;
    }

    /** answers[i] is what the primary would answer to attempt i + 1; used says how many attempts were made. */
    method ChatCompletion(key: string, s: Settings, hasFallback: bool, now: int, answers: seq<Answer>) returns (reply: Reply, used: nat)
      requires s.Valid() && |answers| >= (if hasFallback then 1 else s.maxAttempts)
      modifies this
      ensures used <= |answers|
      ensures states == old(states)[key := RecordedAll(old(Get(key)), answers[..used], s)]
      ensures used == 0 <==> old(Get(key)).openUntil > now && hasFallback
      ensures used == 0 ==> reply == FromFallback
      ensures used > 0 ==> reply == Outcome(answers[used - 1], hasFallback)
      ensures reply == FromPrimary <==> used > 0 && answers[used - 1].Succeeds?
      ensures reply == FromFallback <==> hasFallback && (used == 0 || (answers[used - 1].Fails? && answers[used - 1].transient))
      ensures forall other :: other in old(states) && other != key ==> other in states && states[other] == old(states)[other]
      ensures hasFallback ==> used <= 1 && states == old(states)[key := Served(old(Get(key)), Request(now, answers[0]), s)]
      ensures !hasFallback ==> used <= s.maxAttempts && forall i :: 0 <= i < used - 1 ==> answers[i].Fails? && answers[i].transient
      ensures !hasFallback && reply == Thrown ==> used == s.maxAttempts || !answers[used - 1].transient
    {
      var allowed := if hasFallback then 1 else s.maxAttempts;
      var st := StateFor(key);
      ghost var st0 := st;
      used := 0;
      assert answers[..0] == [];
      if st.openUntil > now && hasFallback { return FromFallback, 0; }
      reply := Thrown;
      while used < allowed
        invariant used <= allowed
        invariant states == old(states)[key := RecordedAll(st0, answers[..used], s)]
        invariant forall i :: 0 <= i < used ==> answers[i].Fails? && answers[i].transient
        invariant used > 0 ==> !hasFallback && reply == Outcome(answers[used - 1], hasFallback)
      {
        var answer := answers[used];
        OneMoreAnswer(st0, answers, used, s);
        used := used + 1;
        match answer {
          case Succeeds(_) =>
            RecordSuccess(key);
            return FromPrimary, used;
          case Fails(at, transient) =>
            var failures := RecordFailure(key, s, at);
            if transient && used < allowed && !hasFallback { continue; }
            if transient && hasFallback { return FromFallback, used; }
            return Thrown, used;
        }
      }
    }
  }

  // ----- one request at a time, with a fallback -----

  /** One request at a time on a clock that does not go back. */
  ghost predicate Sequential(rs: seq<Request>) {
    && (forall i :: 0 <= i < |rs| ==> rs[i].start <= rs[i].answer.at)
    && (forall i, j :: 0 <= i < j < |rs| ==> rs[i].answer.at <= rs[j].start)
  }

  /** The breaker before request k. */
  ghost function Before(rs: seq<Request>, k: nat, s: Settings): CircuitState
    requires k <= |rs|
  {
    if k == 0 then CLOSED else Served(Before(rs, k - 1, s), rs[k - 1], s)
  }

  ghost predicate AsksPrimary(rs: seq<Request>, k: nat, s: Settings)
    requires k < |rs|
  {
    Before(rs, k, s).openUntil <= rs[k].start
  }

  lemma {:induction false} QuietKeepsState(rs: seq<Request>, i: nat, m: nat, s: Settings)
    requires i <= m <= |rs| && forall k :: i <= k < m ==> !AsksPrimary(rs, k, s)
    ensures Before(rs, m, s) == Before(rs, i, s)
    decreases m
  {
    if i < m {
      QuietKeepsState(rs, i, m - 1, s);
      assert !AsksPrimary(rs, m - 1, s);
    }
  }

  /**
   Once a failure has opened the circuit, the primary is left alone for the whole cooldown: every later call
   to it, and so every later failure, comes at least the cooldown after that failure.
   */
  lemma {:induction false} CallsAfterOpeningAreApart(rs: seq<Request>, i: nat, j: nat, s: Settings)
    requires s.Valid() && Sequential(rs) && i < j < |rs|
    requires AsksPrimary(rs, i, s) && rs[i].answer.Fails? && Before(rs, i + 1, s).failures >= s.threshold
    requires AsksPrimary(rs, j, s)
    ensures rs[j].answer.at >= rs[j].start >= rs[i].answer.at + s.cooldownMs
    decreases j
  {
    if k :| i < k < j && AsksPrimary(rs, k, s) {
      CallsAfterOpeningAreApart(rs, i, k, s);
    } else {
      QuietKeepsState(rs, i + 1, j, s);
    }
  }
}
