/**
 The dead-letter replay loop of src/services/call-processing-dead-letter-replay.ts and its accounting.
 How a failure reason is classified and whether the queue accepts a retry are inputs of each job.
 */
module DeadLetterReplay {
  import opened Options

  datatype Job = Job(
    callId: Option<string>, organizationId: Option<string>, failedOn: Option<int>, timestamp: Option<int>,
    attemptsMade: Option<real>, retryable: bool, retrySucceeds: bool)

  datatype Settings = Settings(organizationId: Option<string>, nowMs: int, replayWindowMs: int, replayAttemptCap: int)

  // ----- what becomes of a job -----

  datatype Fate = MissingPayload | DifferentOrganization | DuplicateCall | OutsideReplayWindow | ReplayAttemptCap | NonRetryable
    | Replayed | ReplayError

  datatype Entry = Entry(fate: Fate, org: string, call: string)

  function AttemptsMade(job: Job): int {
    var n := if job.attemptsMade.Some? then job.attemptsMade.value.Floor else 0;
    if n < 0 then 0 else n
  }

  predicate TooOld(s: Settings, job: Job) {
    var failed := if job.failedOn.Some? then job.failedOn else job.timestamp;
    failed.Some? && s.nowMs - failed.value > s.replayWindowMs
  }

  predicate Foreign(s: Settings, org: string) {
    Truthy(s.organizationId) && org != s.organizationId.value
  }

  /** Skipped before the job is counted for an organization. */
  predicate Uncounted(f: Fate) {
    f == MissingPayload || f == DifferentOrganization
  }

  function FateOf(s: Settings, seen: set<string>, job: Job): Fate {
    if !Truthy(job.callId) || !Truthy(job.organizationId) then MissingPayload
    else if Foreign(s, job.organizationId.value) then DifferentOrganization
    else if job.callId.value in seen then DuplicateCall
    else if TooOld(s, job) then OutsideReplayWindow
    else if AttemptsMade(job) >= s.replayAttemptCap then ReplayAttemptCap
    else if !job.retryable then NonRetryable
    else if job.retrySucceeds then Replayed
    else ReplayError
  }

  ghost function Seen(es: seq<Entry>): set<string> {
    set i | 0 <= i < |es| && !Uncounted(es[i].fate) :: es[i].call
  }

  function Text(s: Option<string>): string {
    if s.Some? then s.value else ""
  }

  /** The batch, job by job. */
  ghost function Entries(s: Settings, jobs: seq<Job>): (es: seq<Entry>)
    ensures |es| == |jobs|
  {
    if jobs == [] then []
    else
      var before, job := Entries(s, jobs[..|jobs| - 1]), jobs[|jobs| - 1];
      before + [Entry(FateOf(s, Seen(before), job), Text(job.organizationId), Text(job.callId))]
  }

  // ----- what each fate means, in terms of the job -----

  /** Both ids are there and not empty. */
  ghost predicate Named(job: Job) {
    job.callId.Some? && job.callId.value != "" && job.organizationId.Some? && job.organizationId.value != ""
  }

  /** The replay is for one organization, and the job is another's. */
  ghost predicate OfAnother(s: Settings, job: Job)
    requires Named(job)
  {
    s.organizationId.Some? && s.organizationId.value != "" && s.organizationId.value != job.organizationId.value
  }

  /** It failed, or if that is not recorded was added, longer ago than the window. */
  ghost predicate FailedLongAgo(s: Settings, job: Job) {
    || (job.failedOn.Some? && job.failedOn.value < s.nowMs - s.replayWindowMs)
    || (job.failedOn.None? && job.timestamp.Some? && job.timestamp.value < s.nowMs - s.replayWindowMs)
  }

  /** It was tried as often as the cap allows. */
  ghost predicate TriedOften(s: Settings, job: Job) {
    s.replayAttemptCap <= 0 || (job.attemptsMade.Some? && job.attemptsMade.value >= s.replayAttemptCap as real)
  }

  /** Each job's fate is the first reason that applies to it. */
  lemma FateMeans(s: Settings, seen: set<string>, job: Job)
    ensures FateOf(s, seen, job) == MissingPayload <==> !Named(job)
    ensures Named(job) ==> (FateOf(s, seen, job) == DifferentOrganization <==> OfAnother(s, job))
    ensures Named(job) && !OfAnother(s, job) ==>
              var f, call := FateOf(s, seen, job), job.callId.value;
              && (f == DuplicateCall <==> call in seen)
              && (f == OutsideReplayWindow <==> call !in seen && FailedLongAgo(s, job))
              && (f == ReplayAttemptCap <==> call !in seen && !FailedLongAgo(s, job) && TriedOften(s, job))
              && (f == NonRetryable <==> call !in seen && !FailedLongAgo(s, job) && !TriedOften(s, job) && !job.retryable)
              && (f in {Replayed, ReplayError} <==> call !in seen && !FailedLongAgo(s, job) && !TriedOften(s, job) && job.retryable)
              && (f == Replayed ==> job.retrySucceeds) && (f == ReplayError ==> !job.retrySucceeds)
  {
  }

  /** The calls that count as seen before job j are those of earlier jobs with both ids and of the organization asked for. */
  lemma {:induction false} SeenMeans(s: Settings, jobs: seq<Job>, call: string)
    ensures call in Seen(Entries(s, jobs)) <==>
            exists i :: 0 <= i < |jobs| && Named(jobs[i]) && !OfAnother(s, jobs[i]) && jobs[i].callId.value == call
    decreases |jobs|
  {
    if jobs != [] {
      var n := |jobs| - 1;
      var init, job, es := jobs[..n], jobs[n], Entries(s, jobs[..n]);
      var e := Entry(FateOf(s, Seen(es), job), Text(job.organizationId), Text(job.callId));
      SeenMeans(s, init, call);
      FateMeans(s, Seen(es), job);
      OrgsGrow(es, e);
      assert Entries(s, jobs) == es + [e];
      hide FateOf, Seen, Entries;
      if i :| 0 <= i < |init| && Named(init[i]) && !OfAnother(s, init[i]) && init[i].callId.value == call {
        assert jobs[i] == init[i];
      }
      if i :| 0 <= i < |jobs| && Named(jobs[i]) && !OfAnother(s, jobs[i]) && jobs[i].callId.value == call {
        assert i < n ==> jobs[i] == init[i];
      }
    }
  }

  lemma EntryMeans(s: Settings, jobs: seq<Job>, j: nat)
    requires j < |jobs|
    ensures Entries(s, jobs)[j] == Entry(FateOf(s, Seen(Entries(s, jobs[..j])), jobs[j]), Text(jobs[j].organizationId), Text(jobs[j].callId))
    decreases |jobs|
  {
    var n := |jobs| - 1;
    if j < n {
      EntryMeans(s, jobs[..n], j);
      assert jobs[..n][..j] == jobs[..j];
    }
  }

  ghost function Tally(es: seq<Entry>, f: Fate): nat {
    if es == [] then 0 else Tally(es[..|es| - 1], f) + (if es[|es| - 1].fate == f then 1 else 0)
  }

  ghost function TallyIn(es: seq<Entry>, org: string, f: Fate): nat {
    if es == [] then 0
    else TallyIn(es[..|es| - 1], org, f) + (if es[|es| - 1].fate == f && es[|es| - 1].org == org then 1 else 0)
  }

  ghost function CountedIn(es: seq<Entry>, org: string): nat {
    if es == [] then 0
    else CountedIn(es[..|es| - 1], org) + (if !Uncounted(es[|es| - 1].fate) && es[|es| - 1].org == org then 1 else 0)
  }

  ghost function ReplayedCalls(es: seq<Entry>): seq<string> {
    if es == [] then []
    else ReplayedCalls(es[..|es| - 1]) + (if es[|es| - 1].fate == Replayed then [es[|es| - 1].call] else [])
  }

  ghost function ReplayedCallsIn(es: seq<Entry>, org: string): seq<string> {
    if es == [] then []
    else ReplayedCallsIn(es[..|es| - 1], org)
         + (if es[|es| - 1].fate == Replayed && es[|es| - 1].org == org then [es[|es| - 1].call] else [])
  }

  // ----- the summaries -----

  datatype Skipped = Skipped(missingPayload: nat, differentOrganization: nat, duplicateCall: nat, nonRetryable: nat,
                             outsideReplayWindow: nat, replayAttemptCap: nat, replayError: nat)
  const NONE_SKIPPED := Skipped(0, 0, 0, 0, 0, 0, 0)

  datatype Summary = Summary(scanned: nat, replayed: nat, skipped: Skipped, replayedCalls: seq<string>)
  datatype OrgSummary = OrgSummary(scanned: nat, replayedCalls: seq<string>, skipped: Skipped)

  function AllSkipped(s: Skipped): nat {
    s.missingPayload + s.differentOrganization + s.duplicateCall + s.nonRetryable + s.outsideReplayWindow + s.replayAttemptCap + s.replayError
  }

  ghost function SkippedOf(es: seq<Entry>): Skipped {
    Skipped(Tally(es, MissingPayload), Tally(es, DifferentOrganization), Tally(es, DuplicateCall), Tally(es, NonRetryable),
            Tally(es, OutsideReplayWindow), Tally(es, ReplayAttemptCap), Tally(es, ReplayError))
  }

  ghost function SkippedIn(es: seq<Entry>, org: string): Skipped {
    Skipped(0, 0, TallyIn(es, org, DuplicateCall), TallyIn(es, org, NonRetryable),
            TallyIn(es, org, OutsideReplayWindow), TallyIn(es, org, ReplayAttemptCap), TallyIn(es, org, ReplayError))
  }

  ghost function OrgSummaryOf(es: seq<Entry>, org: string): OrgSummary {
    OrgSummary(CountedIn(es, org), ReplayedCallsIn(es, org), SkippedIn(es, org))
  }

  ghost function Orgs(es: seq<Entry>): set<string> {
    set i | 0 <= i < |es| && !Uncounted(es[i].fate) :: es[i].org
  }

  /** The organization map is the per-organization account of the batch. */
  ghost predicate IsOrgAccount(orgs: map<string, OrgSummary>, es: seq<Entry>) {
    orgs.Keys == Orgs(es) && forall o :: o in orgs ==> orgs[o] == OrgSummaryOf(es, o)
  }

  function OrgStart(orgs: map<string, OrgSummary>, org: string): OrgSummary {
    if org in orgs then orgs[org] else OrgSummary(0, [], NONE_SKIPPED)
  }

  /** One more entry under the heading of its fate. */
  function OneMore(s: Skipped, f: Fate): Skipped {
    match f
    case MissingPayload => s.(missingPayload := s.missingPayload + 1)
    case DifferentOrganization => s.(differentOrganization := s.differentOrganization + 1)
    case DuplicateCall => s.(duplicateCall := s.duplicateCall + 1)
    case OutsideReplayWindow => s.(outsideReplayWindow := s.outsideReplayWindow + 1)
    case ReplayAttemptCap => s.(replayAttemptCap := s.replayAttemptCap + 1)
    case NonRetryable => s.(nonRetryable := s.nonRetryable + 1)
    case ReplayError => s.(replayError := s.replayError + 1)
    case Replayed => s
  }

  /** How one counted entry changes its organization's summary. */
  function Booked(o: OrgSummary, f: Fate, call: string): OrgSummary {
    OrgSummary(o.scanned + 1, if f == Replayed then o.replayedCalls + [call] else o.replayedCalls, OneMore(o.skipped, f))
  }

  lemma SkippedLast(es: seq<Entry>, org: string)
    requires es != []
    ensures var e, init := es[|es| - 1], es[..|es| - 1];
            && SkippedOf(es) == OneMore(SkippedOf(init), e.fate)
            && SkippedIn(es, org) == if e.org == org && !Uncounted(e.fate) then OneMore(SkippedIn(init, org), e.fate) else SkippedIn(init, org)
  {
  }

  lemma OrgSummaryLast(es: seq<Entry>, org: string)
    requires es != []
    ensures var e, init := es[|es| - 1], es[..|es| - 1];
            OrgSummaryOf(es, org)
            == if e.org == org && !Uncounted(e.fate) then Booked(OrgSummaryOf(init, org), e.fate, e.call) else OrgSummaryOf(init, org)
  {
  }

  lemma {:induction false} AbsentOrgIsEmpty(es: seq<Entry>, org: string)
    requires org !in Orgs(es)
    ensures OrgSummaryOf(es, org) == OrgSummary(0, [], NONE_SKIPPED)
  {
    if es != [] {
      var n := |es| - 1;
      assert Orgs(es[..n]) <= Orgs(es) by {
        forall o | o in Orgs(es[..n]) ensures o in Orgs(es) {
          var i :| 0 <= i < |es[..n]| && !Uncounted(es[..n][i].fate) && es[..n][i].org == o;
          assert es[i] == es[..n][i];
        }
      }
      AbsentOrgIsEmpty(es[..n], org);
      OrgSummaryLast(es, org);
      hide OrgSummaryOf;
      assert !Uncounted(es[n].fate) ==> es[n].org in Orgs(es);
    }
  }

  lemma OrgsGrow(es: seq<Entry>, e: Entry)
    ensures Orgs(es + [e]) == Orgs(es) + (if Uncounted(e.fate) then {} else {e.org})
    ensures Seen(es + [e]) == Seen(es) + (if Uncounted(e.fate) then {} else {e.call})
  {
    var all := es + [e];
    forall i | 0 <= i < |es| ensures all[i] == es[i] {}
    assert all[|es|] == e;
  }

  lemma AccountStep(orgs: map<string, OrgSummary>, es: seq<Entry>, e: Entry)
    requires IsOrgAccount(orgs, es) && !Uncounted(e.fate)
    ensures IsOrgAccount(orgs[e.org := Booked(OrgStart(orgs, e.org), e.fate, e.call)], es + [e])
  {
    hide OrgSummaryOf, Booked, Orgs;
    OrgsGrow(es, e);
    var all := es + [e];
    assert all[..|es|] == es;
    var after := orgs[e.org := Booked(OrgStart(orgs, e.org), e.fate, e.call)];
    forall o | o in after ensures after[o] == OrgSummaryOf(all, o) {
      OrgSummaryLast(all, o);
      if o == e.org && e.org !in orgs { AbsentOrgIsEmpty(es, e.org); }
    }
  }

  lemma UncountedStep(orgs: map<string, OrgSummary>, es: seq<Entry>, e: Entry)
    requires IsOrgAccount(orgs, es) && Uncounted(e.fate)
    ensures IsOrgAccount(orgs, es + [e])
  {
    hide OrgSummaryOf, Orgs;
    OrgsGrow(es, e);
    assert (es + [e])[..|es|] == es;
    forall o | o in orgs ensures orgs[o] == OrgSummaryOf(es + [e], o) { OrgSummaryLast(es + [e], o); }
  }

  /** What one job does to everything the loop keeps. */
  lemma JobStep(s: Settings, jobs: seq<Job>, j: nat, orgs: map<string, OrgSummary>)
    requires j < |jobs| && IsOrgAccount(orgs, Entries(s, jobs[..j]))
    ensures var es := Entries(s, jobs[..j]);
            var e := Entry(FateOf(s, Seen(es), jobs[j]), Text(jobs[j].organizationId), Text(jobs[j].callId));
            var next := Entries(s, jobs[..j + 1]);
            && SkippedOf(next) == OneMore(SkippedOf(es), e.fate)
            && Tally(next, Replayed) == Tally(es, Replayed) + (if e.fate == Replayed then 1 else 0)
            && ReplayedCalls(next) == ReplayedCalls(es) + (if e.fate == Replayed then [e.call] else [])
            && Seen(next) == Seen(es) + (if Uncounted(e.fate) then {} else {e.call})
            && IsOrgAccount(if Uncounted(e.fate) then orgs else orgs[e.org := Booked(OrgStart(orgs, e.org), e.fate, e.call)], next)
  {
    hide IsOrgAccount, Seen, SkippedOf, OneMore, Booked, FateOf;
    var es := Entries(s, jobs[..j]);
    var e := Entry(FateOf(s, Seen(es), jobs[j]), Text(jobs[j].organizationId), Text(jobs[j].callId));
    assert jobs[..j + 1][..j] == jobs[..j];
    assert Entries(s, jobs[..j + 1]) == es + [e];
    assert (es + [e])[..|es|] == es;
    SkippedLast(es + [e], "");
    OrgsGrow(es, e);
    if Uncounted(e.fate) { UncountedStep(orgs, es, e); } else { AccountStep(orgs, es, e); }
  }

  method ReplayRetryableDeadLetterJobs(s: Settings, jobs: seq<Job>) returns (summary: Summary, orgs: map<string, OrgSummary>)
    ensures var es := Entries(s, jobs);
            && summary == Summary(|jobs|, Tally(es, Replayed), SkippedOf(es), ReplayedCalls(es))
            && IsOrgAccount(orgs, es)
    ensures AddsUp(summary, orgs)
    ensures CountsFates(summary, Entries(s, jobs)) && forall o :: o in orgs ==> CountsFatesIn(orgs[o], Entries(s, jobs), o)
    ensures forall o :: o in orgs <==> exists j :: 0 <= j < |jobs| && Named(jobs[j]) && !OfAnother(s, jobs[j]) && jobs[j].organizationId.value == o
  {
    hide IsOrgAccount, Seen, SkippedOf, Tally, ReplayedCalls, TooOld, AttemptsMade, Entries;
    NothingYet(s);
    var skipped, replayed, replayedCalls := NONE_SKIPPED, 0, [];
    var seenCallIds := {};
    assert jobs[..0] == [];
    orgs := map[];
    for j := 0 to |jobs|
      invariant skipped == SkippedOf(Entries(s, jobs[..j])) && replayed == Tally(Entries(s, jobs[..j]), Replayed)
      invariant replayedCalls == ReplayedCalls(Entries(s, jobs[..j]))
      invariant seenCallIds == Seen(Entries(s, jobs[..j]))
      invariant IsOrgAccount(orgs, Entries(s, jobs[..j]))
    {
      var job := jobs[j];
      JobStep(s, jobs, j, orgs);
      if !Truthy(job.callId) || !Truthy(job.organizationId) {
        skipped := skipped.(missingPayload := skipped.missingPayload + 1);
        continue;
      }
      var callId, org := job.callId.value, job.organizationId.value;
      if Truthy(s.organizationId) && org != s.organizationId.value {
        skipped := skipped.(differentOrganization := skipped.differentOrganization + 1);
        continue;
      }
      var o := OrgStart(orgs, org);
      o := o.(scanned := o.scanned + 1);
      if callId in seenCallIds {
        skipped := skipped.(duplicateCall := skipped.duplicateCall + 1);
        orgs := orgs[org := o.(skipped := o.skipped.(duplicateCall := o.skipped.duplicateCall + 1))];
        continue;
      }
      seenCallIds := seenCallIds + {callId};
      if TooOld(s, job) {
        skipped := skipped.(outsideReplayWindow := skipped.outsideReplayWindow + 1);
        orgs := orgs[org := o.(skipped := o.skipped.(outsideReplayWindow := o.skipped.outsideReplayWindow + 1))];
        continue;
      }
      if AttemptsMade(job) >= s.replayAttemptCap {
        skipped := skipped.(replayAttemptCap := skipped.replayAttemptCap + 1);
        orgs := orgs[org := o.(skipped := o.skipped.(replayAttemptCap := o.skipped.replayAttemptCap + 1))];
        continue;
      }
      if !job.retryable {
        skipped := skipped.(nonRetryable := skipped.nonRetryable + 1);
        orgs := orgs[org := o.(skipped := o.skipped.(nonRetryable := o.skipped.nonRetryable + 1))];
        continue;
      }
      if job.retrySucceeds {
        replayed := replayed + 1;
        replayedCalls := replayedCalls + [callId];
        orgs := orgs[org := o.(replayedCalls := o.replayedCalls + [callId])];
      } else {
        skipped := skipped.(replayError := skipped.replayError + 1);
        orgs := orgs[org := o.(skipped := o.skipped.(replayError := o.skipped.replayError + 1))];
      }
    }
    assert jobs[..|jobs|] == jobs;
    summary := Summary(|jobs|, replayed, skipped, replayedCalls);
    ReplayAddsUp(s, jobs, orgs);
    FatesAreCounted(Entries(s, jobs));
    forall o | o in orgs ensures CountsFatesIn(orgs[o], Entries(s, jobs), o) {
      assert orgs[o] == OrgSummaryOf(Entries(s, jobs), o) by { OrgAccountAt(orgs, Entries(s, jobs), o); }
      FatesInAreCounted(Entries(s, jobs), o);
    }
    OrgsMean(s, jobs, orgs);
  }

  lemma NothingYet(s: Settings)
    ensures Entries(s, []) == [] && SkippedOf([]) == NONE_SKIPPED && Tally([], Replayed) == 0 && ReplayedCalls([]) == []
    ensures Seen([]) == {} && IsOrgAccount(map[], [])
  {
  }

  lemma NothingSkipped(org: string)
    ensures SkippedOf([]) == NONE_SKIPPED && SkippedIn([], org) == NONE_SKIPPED && AllSkipped(NONE_SKIPPED) == 0
  {
  }

  lemma OneMoreCounts(s: Skipped, f: Fate)
    ensures AllSkipped(OneMore(s, f)) == AllSkipped(s) + (if f == Replayed then 0 else 1)
  {
  }

  // ----- conservation -----

  /** Every scanned job is replayed or skipped under exactly one heading. */
  lemma {:induction false} BatchAddsUp(es: seq<Entry>)
    ensures |es| == Tally(es, Replayed) + AllSkipped(SkippedOf(es))
    ensures |ReplayedCalls(es)| == Tally(es, Replayed)
  {
    hide SkippedOf, OneMore, AllSkipped;
    if es == [] {
      NothingSkipped("");
    } else {
      var init := es[..|es| - 1];
      BatchAddsUp(init);
      SkippedLast(es, "");
      OneMoreCounts(SkippedOf(init), es[|es| - 1].fate);
    }
  }

  /** The same inside each organization. */
  lemma {:induction false} OrganizationAddsUp(es: seq<Entry>, org: string)
    ensures var o := OrgSummaryOf(es, org); o.scanned == |o.replayedCalls| + AllSkipped(o.skipped)
    ensures |ReplayedCallsIn(es, org)| == TallyIn(es, org, Replayed)
  {
    hide SkippedIn, OneMore, AllSkipped;
    if es == [] {
      NothingSkipped(org);
    } else {
      var init := es[..|es| - 1];
      OrganizationAddsUp(init, org);
      SkippedLast(es, org);
      OneMoreCounts(SkippedIn(init, org), es[|es| - 1].fate);
    }
  }

  ghost function Pick(orgs: set<string>): string
    requires orgs != {}
  {
    var o :| o in orgs; o
  }

  ghost function TotalOf(es: seq<Entry>, orgs: set<string>, f: Fate): nat {
    if orgs == {} then 0 else TallyIn(es, Pick(orgs), f) + TotalOf(es, orgs - {Pick(orgs)}, f)
  }

  ghost function TotalScanned(es: seq<Entry>, orgs: set<string>): nat {
    if orgs == {} then 0 else CountedIn(es, Pick(orgs)) + TotalScanned(es, orgs - {Pick(orgs)})
  }

  lemma {:induction false} TotalsStep(es: seq<Entry>, orgs: set<string>, f: Fate)
    requires es != []
    ensures var e, init := es[|es| - 1], es[..|es| - 1];
            && TotalOf(es, orgs, f) == TotalOf(init, orgs, f) + (if e.fate == f && e.org in orgs then 1 else 0)
            && TotalScanned(es, orgs) == TotalScanned(init, orgs) + (if !Uncounted(e.fate) && e.org in orgs then 1 else 0)
    decreases orgs
  {
    if orgs != {} { TotalsStep(es, orgs - {Pick(orgs)}, f); }
  }

  lemma {:induction false} TotalsOfNothing(orgs: set<string>, f: Fate)
    ensures TotalOf([], orgs, f) == 0 && TotalScanned([], orgs) == 0
    decreases orgs
  {
    if orgs != {} { TotalsOfNothing(orgs - {Pick(orgs)}, f); }
  }

  /**
   Over the organizations the replays and each kind of counted skip sum to the totals of the batch, and the
   scans to the batch without its missing payloads and other organizations.
   */
  lemma {:induction false} OrganizationsSumToTheBatch(es: seq<Entry>, orgs: set<string>, f: Fate)
    requires Orgs(es) <= orgs && !Uncounted(f)
    ensures TotalOf(es, orgs, f) == Tally(es, f)
    ensures TotalScanned(es, orgs) == |es| - Tally(es, MissingPayload) - Tally(es, DifferentOrganization)
    decreases |es|
  {
    if es == [] {
      TotalsOfNothing(orgs, f);
    } else {
      var n := |es| - 1;
      assert es == es[..n] + [es[n]];
      OrgsGrow(es[..n], es[n]);
      OrganizationsSumToTheBatch(es[..n], orgs, f);
      TotalsStep(es, orgs, f);
    }
  }

  predicate Tried(f: Fate) {
    f == Replayed || f == ReplayError
  }

  /** No call is retried twice in a batch, whatever the first retry gave. */
  lemma {:induction false} NoCallRetriedTwice(s: Settings, jobs: seq<Job>, i: nat, j: nat)
    requires i < j < |jobs| && Tried(Entries(s, jobs)[i].fate) && Tried(Entries(s, jobs)[j].fate)
    ensures Entries(s, jobs)[i].call != Entries(s, jobs)[j].call
    decreases |jobs|
  {
    var n := |jobs| - 1;
    var before := Entries(s, jobs[..n]);
    if j < n {
      NoCallRetriedTwice(s, jobs[..n], i, j);
    } else {
      assert before[i].call in Seen(before);
    }
  }

  // ----- the summaries add up -----

  ghost function ScannedOver(orgs: map<string, OrgSummary>, keys: set<string>): nat
    requires keys <= orgs.Keys
  {
    if keys == {} then 0 else orgs[Pick(keys)].scanned + ScannedOver(orgs, keys - {Pick(keys)})
  }

  ghost function ReplayedOver(orgs: map<string, OrgSummary>, keys: set<string>): nat
    requires keys <= orgs.Keys
  {
    if keys == {} then 0 else |orgs[Pick(keys)].replayedCalls| + ReplayedOver(orgs, keys - {Pick(keys)})
  }

  /** Scans are replays plus skips, in the batch and in each organization; organizations sum to the batch; no call is replayed twice. */
  ghost predicate AddsUp(summary: Summary, orgs: map<string, OrgSummary>) {
    && summary.scanned == summary.replayed + AllSkipped(summary.skipped)
    && |summary.replayedCalls| == summary.replayed
    && (forall o :: o in orgs ==> orgs[o].scanned == |orgs[o].replayedCalls| + AllSkipped(orgs[o].skipped))
    && ScannedOver(orgs, orgs.Keys) == summary.scanned - summary.skipped.missingPayload - summary.skipped.differentOrganization
    && ReplayedOver(orgs, orgs.Keys) == summary.replayed
    && Distinct(summary.replayedCalls)
  }

  ghost predicate Distinct(calls: seq<string>) {
    forall i, j :: 0 <= i < j < |calls| ==> calls[i] != calls[j]
  }

  lemma OneMoreDistinct(calls: seq<string>, call: string)
    requires Distinct(calls) && call !in calls
    ensures Distinct(calls + [call])
  {
  }

  lemma {:induction false} OverIsTotal(es: seq<Entry>, orgs: map<string, OrgSummary>, keys: set<string>)
    requires keys <= orgs.Keys && forall o :: o in orgs ==> orgs[o] == OrgSummaryOf(es, o)
    ensures ScannedOver(orgs, keys) == TotalScanned(es, keys) && ReplayedOver(orgs, keys) == TotalOf(es, keys, Replayed)
    decreases keys
  {
    hide SkippedIn;
    if keys != {} {
      OverIsTotal(es, orgs, keys - {Pick(keys)});
      OrganizationAddsUp(es, Pick(keys));
    }
  }

  lemma {:induction false} ReplayedCallsDiffer(s: Settings, jobs: seq<Job>)
    ensures Distinct(ReplayedCalls(Entries(s, jobs)))
    ensures forall c :: c in ReplayedCalls(Entries(s, jobs)) ==> c in Seen(Entries(s, jobs))
  {
    if jobs != [] {
      var init, job := jobs[..|jobs| - 1], jobs[|jobs| - 1];
      var es := Entries(s, init);
      var e := Entry(FateOf(s, Seen(es), job), Text(job.organizationId), Text(job.callId));
      ReplayedCallsDiffer(s, init);
      assert Entries(s, jobs) == es + [e] && (es + [e])[..|es|] == es;
      OrgsGrow(es, e);
      assert e.fate == Replayed ==> e.call !in Seen(es);
      var calls := ReplayedCalls(es);
      assert ReplayedCalls(es + [e]) == calls + (if e.fate == Replayed then [e.call] else []);
      if e.fate == Replayed { OneMoreDistinct(calls, e.call); }
    }
  }

  lemma ReplayAddsUp(s: Settings, jobs: seq<Job>, orgs: map<string, OrgSummary>)
    requires IsOrgAccount(orgs, Entries(s, jobs))
    ensures var es := Entries(s, jobs); AddsUp(Summary(|jobs|, Tally(es, Replayed), SkippedOf(es), ReplayedCalls(es)), orgs)
  {
    hide Tally, ReplayedCalls, CountedIn, ReplayedCallsIn, SkippedIn, AllSkipped, Orgs;
    var es := Entries(s, jobs);
    BatchAddsUp(es);
    forall o | o in orgs ensures orgs[o].scanned == |orgs[o].replayedCalls| + AllSkipped(orgs[o].skipped) { OrganizationAddsUp(es, o); }
    OverIsTotal(es, orgs, orgs.Keys);
    OrganizationsSumToTheBatch(es, orgs.Keys, Replayed);
    ReplayedCallsDiffer(s, jobs);
  }

  // ----- the summaries count the fates -----

  ghost function WithFate(es: seq<Entry>, f: Fate): set<nat> {
    set i: nat | i < |es| && es[i].fate == f
  }

  ghost function WithFateIn(es: seq<Entry>, org: string, f: Fate): set<nat> {
    set i: nat | i < |es| && es[i].fate == f && es[i].org == org
  }

  ghost predicate HasReplayed(es: seq<Entry>, call: string) {
    exists i :: 0 <= i < |es| && es[i].fate == Replayed && es[i].call == call
  }

  ghost predicate HasReplayedIn(es: seq<Entry>, org: string, call: string) {
    exists i :: 0 <= i < |es| && es[i].fate == Replayed && es[i].org == org && es[i].call == call
  }

  /** Each number of the summary is the number of entries with that fate, and the replayed calls are theirs. */
  ghost predicate CountsFates(summary: Summary, es: seq<Entry>) {
    && summary.scanned == |es| && summary.replayed == |WithFate(es, Replayed)|
    && summary.skipped.missingPayload == |WithFate(es, MissingPayload)|
    && summary.skipped.differentOrganization == |WithFate(es, DifferentOrganization)|
    && summary.skipped.duplicateCall == |WithFate(es, DuplicateCall)|
    && summary.skipped.nonRetryable == |WithFate(es, NonRetryable)|
    && summary.skipped.outsideReplayWindow == |WithFate(es, OutsideReplayWindow)|
    && summary.skipped.replayAttemptCap == |WithFate(es, ReplayAttemptCap)|
    && summary.skipped.replayError == |WithFate(es, ReplayError)|
    && (forall c :: c in summary.replayedCalls <==> HasReplayed(es, c))
  }

  /** The same for one organization. */
  ghost predicate CountsFatesIn(o: OrgSummary, es: seq<Entry>, org: string) {
    && o.skipped.missingPayload == 0 && o.skipped.differentOrganization == 0
    && o.skipped.duplicateCall == |WithFateIn(es, org, DuplicateCall)|
    && o.skipped.nonRetryable == |WithFateIn(es, org, NonRetryable)|
    && o.skipped.outsideReplayWindow == |WithFateIn(es, org, OutsideReplayWindow)|
    && o.skipped.replayAttemptCap == |WithFateIn(es, org, ReplayAttemptCap)|
    && o.skipped.replayError == |WithFateIn(es, org, ReplayError)|
    && (forall c :: c in o.replayedCalls <==> HasReplayedIn(es, org, c))
  }

  lemma {:induction false} TallyCounts(es: seq<Entry>, org: string, f: Fate)
    ensures Tally(es, f) == |WithFate(es, f)| && TallyIn(es, org, f) == |WithFateIn(es, org, f)|
  {
    if es == [] {
      assert WithFate(es, f) == {} && WithFateIn(es, org, f) == {};
    } else {
      var n := |es| - 1;
      TallyCounts(es[..n], org, f);
      OneMoreWithFate(es, org, f);
      hide WithFate, WithFateIn;
    }
  }

  lemma OneMoreWithFate(es: seq<Entry>, org: string, f: Fate)
    requires es != []
    ensures var n := |es| - 1;
            && WithFate(es, f) == WithFate(es[..n], f) + (if es[n].fate == f then {n} else {}) && n !in WithFate(es[..n], f)
            && WithFateIn(es, org, f) == WithFateIn(es[..n], org, f) + (if es[n].fate == f && es[n].org == org then {n} else {})
            && n !in WithFateIn(es[..n], org, f)
  {
  }

  lemma OneMoreReplayed(es: seq<Entry>, e: Entry, org: string, c: string)
    ensures HasReplayed(es + [e], c) <==> HasReplayed(es, c) || (e.fate == Replayed && e.call == c)
    ensures HasReplayedIn(es + [e], org, c) <==> HasReplayedIn(es, org, c) || (e.fate == Replayed && e.org == org && e.call == c)
  {
    var all := es + [e];
    assert all[|es|] == e && forall i :: 0 <= i < |es| ==> all[i] == es[i];
    if i :| 0 <= i < |es| && es[i].fate == Replayed && es[i].call == c { assert all[i].fate == Replayed && all[i].call == c; }
    if i :| 0 <= i < |es| && es[i].fate == Replayed && es[i].org == org && es[i].call == c {
      assert all[i].fate == Replayed && all[i].org == org && all[i].call == c;
    }
  }

  lemma {:induction false} ReplayedCallsMean(es: seq<Entry>, org: string, c: string)
    ensures c in ReplayedCalls(es) <==> HasReplayed(es, c)
    ensures c in ReplayedCallsIn(es, org) <==> HasReplayedIn(es, org, c)
  {
    if es != [] {
      hide HasReplayed, HasReplayedIn;
      var n := |es| - 1;
      ReplayedCallsMean(es[..n], org, c);
      OneMoreReplayed(es[..n], es[n], org, c);
      assert es == es[..n] + [es[n]];
    }
  }

  lemma FatesAreCounted(es: seq<Entry>)
    ensures CountsFates(Summary(|es|, Tally(es, Replayed), SkippedOf(es), ReplayedCalls(es)), es)
  {
    hide Tally, TallyIn, ReplayedCalls, WithFate, WithFateIn, HasReplayed;
    forall f: Fate ensures Tally(es, f) == |WithFate(es, f)| { TallyCounts(es, "", f); }
    forall c ensures c in ReplayedCalls(es) <==> HasReplayed(es, c) { ReplayedCallsMean(es, "", c); }
  }

  lemma FatesInAreCounted(es: seq<Entry>, org: string)
    ensures CountsFatesIn(OrgSummaryOf(es, org), es, org)
  {
    hide Tally, TallyIn, ReplayedCallsIn, WithFate, WithFateIn, CountedIn, HasReplayedIn;
    forall f: Fate ensures TallyIn(es, org, f) == |WithFateIn(es, org, f)| { TallyCounts(es, org, f); }
    forall c ensures c in ReplayedCallsIn(es, org) <==> HasReplayedIn(es, org, c) { ReplayedCallsMean(es, org, c); }
  }

  lemma OrgAccountAt(orgs: map<string, OrgSummary>, es: seq<Entry>, o: string)
    requires IsOrgAccount(orgs, es) && o in orgs
    ensures orgs[o] == OrgSummaryOf(es, o)
  {
  }

  /** Organizations with an account are those of a job with both ids that is not another organization's. */
  lemma OrgsMean(s: Settings, jobs: seq<Job>, orgs: map<string, OrgSummary>)
    requires IsOrgAccount(orgs, Entries(s, jobs))
    ensures forall o :: o in orgs <==> exists j :: 0 <= j < |jobs| && Named(jobs[j]) && !OfAnother(s, jobs[j]) && jobs[j].organizationId.value == o
  {
    var es := Entries(s, jobs);
    forall j | 0 <= j < |jobs|
      ensures !Uncounted(es[j].fate) <==> Named(jobs[j]) && !OfAnother(s, jobs[j])
      ensures Named(jobs[j]) ==> es[j].org == jobs[j].organizationId.value
    {
      EntryMeans(s, jobs, j);
      FateMeans(s, Seen(Entries(s, jobs[..j])), jobs[j]);
    }
    hide Entries, OrgSummaryOf, Named, OfAnother;
    forall o ensures o in orgs <==> exists j :: 0 <= j < |jobs| && Named(jobs[j]) && !OfAnother(s, jobs[j]) && jobs[j].organizationId.value == o {
      if o in orgs {
        var j :| 0 <= j < |es| && !Uncounted(es[j].fate) && es[j].org == o;
        assert jobs[j].organizationId.value == o;
      }
    }
  }
}
