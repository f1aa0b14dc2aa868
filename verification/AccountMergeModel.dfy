/**
 The effect of the two merges and of the undo on the tables, one relation per transaction
 (src/services/account-merge.ts, src/services/entity-resolution-queue.ts), and what every run of them keeps.
 */
module AccountMergeModel {
  import opened Options
  import opened AccountTables

  predicate InOrg(s: Tables, org: Id, a: Id) {
    a in s.accounts && s.accounts[a].org == org
  }

  // ----- merge with an undo ledger (executeMerge) -----

  /** Columns of the primary filled from the secondary where the primary has none. */
  function WithCrmIds(primary: Account, secondary: Account): Account {
    primary.(
      salesforceId := if !Truthy(primary.salesforceId) && Truthy(secondary.salesforceId) then secondary.salesforceId else primary.salesforceId,
      hubspotId := if !Truthy(primary.hubspotId) && Truthy(secondary.hubspotId) then secondary.hubspotId else primary.hubspotId,
      mergeAccountId := if !Truthy(primary.mergeAccountId) && Truthy(secondary.mergeAccountId) then secondary.mergeAccountId else primary.mergeAccountId,
      industry := if !Truthy(primary.industry) && Truthy(secondary.industry) then secondary.industry else primary.industry,
      employeeCount := if primary.employeeCount.None? then secondary.employeeCount else primary.employeeCount,
      annualRevenue := if primary.annualRevenue.None? then secondary.annualRevenue else primary.annualRevenue)
  }

  /** The column takes the secondary's value exactly where the primary has none and the secondary has one. */
  predicate Filled(primary: Option<string>, secondary: Option<string>, result: Option<string>) {
    && (Truthy(primary) || !Truthy(secondary) ==> result == primary)
    && (!Truthy(primary) && Truthy(secondary) ==> result == secondary)
  }

  /** Every CRM column is filled where it is missing, and the identity of the account stays. */
  predicate FilledFrom(primary: Account, secondary: Account, r: Account) {
    && Filled(primary.salesforceId, secondary.salesforceId, r.salesforceId)
    && Filled(primary.hubspotId, secondary.hubspotId, r.hubspotId)
    && Filled(primary.mergeAccountId, secondary.mergeAccountId, r.mergeAccountId)
    && Filled(primary.industry, secondary.industry, r.industry)
    && (r.employeeCount == if primary.employeeCount.Some? then primary.employeeCount else secondary.employeeCount)
    && (r.annualRevenue == if primary.annualRevenue.Some? then primary.annualRevenue else secondary.annualRevenue)
    && r.org == primary.org && r.name == primary.name && r.domain == primary.domain
  }

  /** A merge never loses or overwrites a CRM column of the primary, and leaves its identity alone. */
  lemma CrmColumnsFill(primary: Account, secondary: Account)
    ensures FilledFrom(primary, secondary, WithCrmIds(primary, secondary))
  {
  }

  function SnapshotOf(a: Account): Snapshot {
    Snapshot(a.name, a.domain, a.industry, a.employeeCount, a.annualRevenue)
  }

  /** Links to dropped duplicates are cleared. */
  ghost function LinksCleared(participants: map<Id, Option<Id>>, contacts: map<Id, Contact>, p: Id, q: Id, todo: set<Id>): map<Id, Option<Id>> {
    map x | x in participants ::
      if participants[x].Some? && participants[x].value in contacts && participants[x].value !in todo
         && Duplicate(contacts, p, q, participants[x].value)
      then None else participants[x]
  }

  ghost function Owned(owners: map<Id, Id>, q: Id): set<Id> {
    set k | k in owners && owners[k] == q
  }

  ghost function OwnedOptional(owners: map<Id, Option<Id>>, q: Id): set<Id> {
    set k | k in owners && owners[k] == Some(q)
  }

  ghost function MovedContacts(contacts: map<Id, Contact>, p: Id, q: Id): set<Id> {
    set c | c in contacts && contacts[c].account == q && !Duplicate(contacts, p, q, c)
  }

  ghost function RunOf(s: Tables, org: Id, p: Id, q: Id): MergeRun
    requires q in s.accounts
  {
    MergeRun(org, p, q, Completed, SnapshotOf(s.accounts[q]),
             MovedContacts(s.contacts, p, q), OwnedOptional(s.calls, q), Owned(s.stories, q))
  }

  /** Both merges rewrite these tables in the same way. */
  ghost predicate Handover(s: Tables, s': Tables, p: Id, q: Id)
    requires p in s.accounts && q in s.accounts
  {
    && s'.contacts == ContactsLeft(s.contacts, p, q, {})
    && s'.calls == ReassignOptional(s.calls, q, p)
    && s'.stories == Reassign(s.stories, q, p)
    && s'.events == ReassignEvents(s.events, q, p)
    && s'.grants == ReassignOptional(s.grants, q, p)
    && AliasesMerged(s.aliases, s'.aliases, p, q, Inherited(s.accounts[p], s.accounts[q], s.aliases, q))
    && s'.quotes == (map k | k in s.quotes && s.quotes[k] != q :: s.quotes[k])
    && s'.regenLogs == s.regenLogs
    && s.nextId <= s'.nextId && FreshIds(s')
  }

  /** What both merges check before they start. */
  predicate MayMerge(s: Tables, org: Id, p: Id, q: Id) {
    InOrg(s, org, p) && InOrg(s, org, q) && p != q
  }

  /** The statements every merge runs that the database can refuse: the event update and the final delete. */
  predicate Unblocked(s: Tables, p: Id, q: Id) {
    !EventsClash(s.events, p, q) && !(exists l :: l in s.regenLogs && s.regenLogs[l] == q)
  }

  /** The primary would be given the Salesforce id that the secondary still holds. */
  predicate CopiesSalesforceId(primary: Account, secondary: Account) {
    !Truthy(primary.salesforceId) && Truthy(secondary.salesforceId)
  }

  ghost predicate ExecuteMerged(s: Tables, s': Tables, org: Id, p: Id, q: Id, run: nat) {
    && MayMerge(s, org, p, q) && Unblocked(s, p, q)
    && !CopiesSalesforceId(s.accounts[p], s.accounts[q])
    && Handover(s, s', p, q)
    && s'.accounts == s.accounts[p := WithCrmIds(s.accounts[p], s.accounts[q])] - {q}
    && s'.participants == LinksCleared(s.participants, s.contacts, p, q, {})
    && s.nextId <= run < s'.nextId
    && s'.runs == s.runs[run := RunOf(s, org, p, q)]
  }

  // ----- merge without a ledger (mergeAccounts) -----

  /** Links to dropped duplicates follow the email to the contact that stays. */
  ghost function LinksRedirected(participants: map<Id, Option<Id>>, contacts: map<Id, Contact>, p: Id, q: Id, todo: set<Id>): map<Id, Option<Id>> {
    map x | x in participants ::
      if participants[x].Some? && participants[x].value in contacts && participants[x].value !in todo
         && Duplicate(contacts, p, q, participants[x].value)
      then Some(Twin(contacts, p, q, participants[x].value)) else participants[x]
  }

  ghost predicate QueueMerged(s: Tables, s': Tables, org: Id, p: Id, q: Id) {
    && MayMerge(s, org, p, q) && Unblocked(s, p, q)
    && Handover(s, s', p, q)
    && s'.accounts == s.accounts - {q}
    && s'.participants == LinksRedirected(s.participants, s.contacts, p, q, {})
    && s'.runs == s.runs
  }

  // ----- undo -----

  function Restored(org: Id, snapshot: Snapshot): Account {
    Account(org, snapshot.name, snapshot.domain, None, None, None, snapshot.industry, snapshot.employeeCount, snapshot.annualRevenue)
  }

  function ContactsBack(contacts: map<Id, Contact>, run: MergeRun): map<Id, Contact> {
    map c | c in contacts ::
      if c in run.movedContacts && contacts[c].account == run.primary then contacts[c].(account := run.secondary) else contacts[c]
  }

  function CallsBack(calls: map<Id, Option<Id>>, run: MergeRun): map<Id, Option<Id>> {
    map c | c in calls :: if c in run.movedCalls && calls[c] == Some(run.primary) then Some(run.secondary) else calls[c]
  }

  function StoriesBack(stories: map<Id, Id>, run: MergeRun): map<Id, Id> {
    map t | t in stories :: if t in run.movedStories && stories[t] == run.primary then run.secondary else stories[t]
  }

  function AccountsBack(accounts: map<Id, Account>, run: MergeRun): map<Id, Account> {
    if run.secondary in accounts && accounts[run.secondary].org == run.org then accounts
    else accounts[run.secondary := Restored(run.org, run.snapshot)]
  }

  predicate MayUndo(s: Tables, org: Id, r: nat) {
    r in s.runs && s.runs[r].org == org && s.runs[r].status == Completed
  }

  /** No account of the organization holds the domain; a null never clashes. */
  predicate DomainFree(accounts: map<Id, Account>, org: Id, domain: Option<string>) {
    domain.Some? ==> !exists a :: a in accounts && accounts[a].org == org && accounts[a].domain == domain
  }

  /** The database takes the re-created account and the moved contacts. */
  predicate UndoFits(s: Tables, run: MergeRun) {
    && (InOrg(s, run.org, run.secondary)
        || (run.secondary !in s.accounts && DomainFree(s.accounts, run.org, run.snapshot.domain)))
    && UniqueContacts(ContactsBack(s.contacts, run))
  }

  ghost predicate UndoneTo(s: Tables, s': Tables, org: Id, r: nat) {
    && MayUndo(s, org, r) && UndoFits(s, s.runs[r])
    && s' == s.(accounts := AccountsBack(s.accounts, s.runs[r]),
                contacts := ContactsBack(s.contacts, s.runs[r]),
                calls := CallsBack(s.calls, s.runs[r]),
                stories := StoriesBack(s.stories, s.runs[r]),
                runs := s.runs[r := s.runs[r].(status := Undone)])
  }

  // ----- a new account -----

  /** No account has the id, and no ledger row names an account with it: ids are generated and never used twice. */
  ghost predicate UnusedId(s: Tables, id: Id) {
    id !in s.accounts && forall r :: r in s.runs ==> s.runs[r].primary != id && s.runs[r].secondary != id
  }

  /** An account is created by any of the services that do so; the database takes it. */
  ghost predicate Created(s: Tables, s': Tables, id: Id, account: Account) {
    && UnusedId(s, id) && UniqueAccounts(s.accounts[id := account])
    && s' == s.(accounts := s.accounts[id := account])
  }

  // ----- consistency is kept -----

  lemma HandoverKeepsContacts(s: Tables, p: Id, q: Id)
    requires UniqueContacts(s.contacts) && p != q
    ensures UniqueContacts(ContactsLeft(s.contacts, p, q, {}))
  {
  }

  /** Moving the events keeps their key unique exactly when none clash. */
  lemma HandoverKeepsEvents(events: map<Id, Event>, p: Id, q: Id)
    requires UniqueEvents(events) && p != q
    ensures UniqueEvents(ReassignEvents(events, q, p)) <==> !EventsClash(events, p, q)
  {
    var after := ReassignEvents(events, q, p);
    if EventsClash(events, p, q) {
      var e, f :| e in events && f in events && events[e].account == p && events[f].account == q && SameOpportunity(events[e], events[f]);
      assert e in after && f in after && e != f && after[e].account == after[f].account && SameOpportunity(after[e], after[f]);
    }
  }

  lemma ReassignResolves(stories: map<Id, Id>, calls: map<Id, Option<Id>>, events: map<Id, Event>, accounts: set<Id>, p: Id, q: Id)
    requires p in accounts && p != q
    requires forall k :: k in stories ==> stories[k] in accounts
    requires forall k :: k in calls && calls[k].Some? ==> calls[k].value in accounts
    requires forall k :: k in events ==> events[k].account in accounts
    ensures forall k :: k in Reassign(stories, q, p) ==> Reassign(stories, q, p)[k] in accounts - {q}
    ensures forall k :: k in ReassignOptional(calls, q, p) && ReassignOptional(calls, q, p)[k].Some? ==>
              ReassignOptional(calls, q, p)[k].value in accounts - {q}
    ensures forall k :: k in ReassignEvents(events, q, p) ==> ReassignEvents(events, q, p)[k].account in accounts - {q}
  {
  }

  lemma ContactsResolve(contacts: map<Id, Contact>, accounts: set<Id>, p: Id, q: Id)
    requires p in accounts && p != q && forall c :: c in contacts ==> contacts[c].account in accounts
    ensures forall c :: c in ContactsLeft(contacts, p, q, {}) ==> ContactsLeft(contacts, p, q, {})[c].account in accounts - {q}
  {
  }

  lemma AliasesResolve(before: map<nat, Alias>, after: map<nat, Alias>, accounts: set<Id>, p: Id, q: Id, added: set<string>)
    requires p in accounts && p != q && forall i :: i in before ==> before[i].account in accounts
    requires AliasesMerged(before, after, p, q, added)
    ensures forall i :: i in after ==> after[i].account in accounts - {q}
  {
  }

  lemma HandoverKeepsReferences(s: Tables, s': Tables, p: Id, q: Id)
    requires References(s) && p in s.accounts && q in s.accounts && p != q && Unblocked(s, p, q)
    requires Handover(s, s', p, q)
    requires s'.accounts.Keys == s.accounts.Keys - {q}
    requires forall x :: x in s'.participants && s'.participants[x].Some? ==> s'.participants[x].value in s'.contacts
    ensures References(s')
  {
    hide EventsClash, FreshIds, AliasesMerged, Inherited, Reassign, ReassignOptional, ReassignEvents, ContactsLeft;
    var keys := s.accounts.Keys;
    ReassignResolves(s.stories, s.calls, s.events, keys, p, q);
    ReassignResolves(s.stories, s.grants, s.events, keys, p, q);
    ContactsResolve(s.contacts, keys, p, q);
    AliasesResolve(s.aliases, s'.aliases, keys, p, q, Inherited(s.accounts[p], s.accounts[q], s.aliases, q));
  }

  lemma NewRunKeepsLedger(runs: map<nat, MergeRun>, accounts: map<Id, Account>, accounts': map<Id, Account>, run: nat, row: MergeRun)
    requires Ledger(runs, accounts) && run !in runs
    requires row.secondary in accounts && accounts'.Keys == accounts.Keys - {row.secondary}
    ensures Ledger(runs[run := row], accounts')
  {
  }

  lemma ExecuteMergeKeepsAccounts(accounts: map<Id, Account>, p: Id, q: Id)
    requires UniqueAccounts(accounts) && p in accounts && q in accounts && p != q
    requires !CopiesSalesforceId(accounts[p], accounts[q])
    ensures UniqueAccounts(accounts[p := WithCrmIds(accounts[p], accounts[q])] - {q})
  {
  }

  lemma ExecuteMergeKeepsConsistent(s: Tables, s': Tables, org: Id, p: Id, q: Id, run: nat)
    requires Consistent(s) && ExecuteMerged(s, s', org, p, q, run)
    ensures Consistent(s')
  {
    hide Ledger, UniqueAccounts, UniqueContacts, UniqueEvents, UniqueAliases, References, EventsClash, AliasDomains, Inherited,
         Reassign, ReassignOptional, ReassignEvents, EmailOn;
    HandoverKeepsContacts(s, p, q);
    HandoverKeepsEvents(s.events, p, q);
    LinksClearedLead(s, p, q);
    HandoverKeepsReferences(s, s', p, q);
    NewRunKeepsLedger(s.runs, s.accounts, s'.accounts, run, RunOf(s, org, p, q));
    ExecuteMergeKeepsAccounts(s.accounts, p, q);
  }

  lemma LinksClearedLead(s: Tables, p: Id, q: Id)
    requires References(s)
    ensures var links := LinksCleared(s.participants, s.contacts, p, q, {});
            forall x :: x in links && links[x].Some? ==> links[x].value in ContactsLeft(s.contacts, p, q, {})
  {
  }

  lemma LinksRedirectedLead(s: Tables, p: Id, q: Id)
    requires References(s) && p != q
    ensures var links := LinksRedirected(s.participants, s.contacts, p, q, {});
            forall x :: x in links && links[x].Some? ==> links[x].value in ContactsLeft(s.contacts, p, q, {})
  {
  }

  lemma FewerAccounts(accounts: map<Id, Account>, runs: map<nat, MergeRun>, q: Id)
    requires UniqueAccounts(accounts) && Ledger(runs, accounts)
    ensures UniqueAccounts(accounts - {q}) && Ledger(runs, accounts - {q})
  {
  }

  lemma QueueMergeKeepsConsistent(s: Tables, s': Tables, org: Id, p: Id, q: Id)
    requires Consistent(s) && QueueMerged(s, s', org, p, q)
    ensures Consistent(s')
  {
    hide UniqueContacts, UniqueEvents, UniqueAliases, References, EventsClash, AliasDomains, Inherited,
         Reassign, ReassignOptional, ReassignEvents, EmailOn, UniqueAccounts, Ledger, LinksRedirected, ContactsLeft;
    HandoverKeepsContacts(s, p, q);
    HandoverKeepsEvents(s.events, p, q);
    LinksRedirectedLead(s, p, q);
    HandoverKeepsReferences(s, s', p, q);
    FewerAccounts(s.accounts, s.runs, q);
  }

  lemma UndoKeepsConsistent(s: Tables, s': Tables, org: Id, r: nat)
    requires Consistent(s) && UndoneTo(s, s', org, r)
    ensures Consistent(s')
  {
    hide UniqueAccounts, UniqueEvents, UniqueAliases, UniqueContacts, FreshIds, DomainFree;
    var run := s.runs[r];
    assert run.secondary !in s.accounts;
    assert s'.accounts == s.accounts[run.secondary := Restored(run.org, run.snapshot)];
    assert FreshIds(s') by { UndoKeepsFreshIds(s, s', r); }
    UndoKeepsAccounts(s.accounts, run);
    UndoKeepsLedger(s, r);
    hide Ledger;
  }

  lemma UndoKeepsFreshIds(s: Tables, s': Tables, r: nat)
    requires FreshIds(s) && r in s.runs && s'.aliases == s.aliases && s'.runs.Keys == s.runs.Keys && s'.nextId == s.nextId
    ensures FreshIds(s')
  {
  }

  lemma UndoKeepsAccounts(accounts: map<Id, Account>, run: MergeRun)
    requires UniqueAccounts(accounts) && run.secondary !in accounts && DomainFree(accounts, run.org, run.snapshot.domain)
    ensures UniqueAccounts(accounts[run.secondary := Restored(run.org, run.snapshot)])
  {
  }

  lemma UndoKeepsLedger(s: Tables, r: nat)
    requires Ledger(s.runs, s.accounts) && r in s.runs && s.runs[r].status.Completed?
    ensures Ledger(s.runs[r := s.runs[r].(status := Undone)],
                   s.accounts[s.runs[r].secondary := Restored(s.runs[r].org, s.runs[r].snapshot)])
  {
  }

  lemma CreateKeepsConsistent(s: Tables, s': Tables, id: Id, account: Account)
    requires Consistent(s) && Created(s, s', id, account)
    ensures Consistent(s')
  {
    hide UniqueAccounts, UniqueEvents, UniqueAliases, UniqueContacts;
  }
}
