/**
 What each transaction does to every row, table by table, in terms of the columns alone.
 */
module AccountMergeRows {
  import opened Options
  import opened AccountTables
  import opened AccountMergeModel

  function Heir(owner: Id, p: Id, q: Id): Id {
    if owner == q then p else owner
  }

  /** The email of a contact of q that p has as well. */
  ghost predicate OnBoth(contacts: map<Id, Contact>, p: Id, q: Id, c: Id)
    requires c in contacts
  {
    contacts[c].account == q && exists d :: d in contacts && contacts[d].account == p && contacts[d].email == contacts[c].email
  }

  /** Contacts on both accounts go, the others of q pass to p, and nothing else about a contact changes. */
  ghost predicate ContactRows(before: map<Id, Contact>, after: map<Id, Contact>, p: Id, q: Id) {
    && (forall c :: c in after ==> c in before)
    && (forall c :: c in before ==> (c in after <==> !OnBoth(before, p, q, c)))
    && (forall c :: c in after ==> after[c].email == before[c].email && after[c].account == Heir(before[c].account, p, q))
  }

  ghost predicate OptionalOwners(before: map<Id, Option<Id>>, after: map<Id, Option<Id>>, p: Id, q: Id) {
    && after.Keys == before.Keys
    && (forall k :: k in before ==> (after[k].Some? <==> before[k].Some?))
    && (forall k :: k in before && before[k].Some? ==> after[k].value == Heir(before[k].value, p, q))
  }

  ghost predicate EventRows(before: map<Id, Event>, after: map<Id, Event>, p: Id, q: Id) {
    && after.Keys == before.Keys
    && (forall e :: e in before ==>
          && after[e].opportunity == before[e].opportunity && after[e].stage == before[e].stage
          && after[e].account == Heir(before[e].account, p, q))
  }

  /** Rows of q pass to p, library quotes of q are deleted, and rows of anyone else stay as they are. */
  ghost predicate RowsHandedOver(s: Tables, s': Tables, p: Id, q: Id) {
    && ContactRows(s.contacts, s'.contacts, p, q)
    && OptionalOwners(s.calls, s'.calls, p, q) && OptionalOwners(s.grants, s'.grants, p, q)
    && s'.stories.Keys == s.stories.Keys && (forall k :: k in s.stories ==> s'.stories[k] == Heir(s.stories[k], p, q))
    && EventRows(s.events, s'.events, p, q)
    && (forall k :: k in s'.quotes ==> k in s.quotes)
    && (forall k :: k in s.quotes ==> (k in s'.quotes <==> s.quotes[k] != q) && (k in s'.quotes ==> s'.quotes[k] == s.quotes[k]))
    && s'.regenLogs == s.regenLogs
  }

  lemma HandoverRows(s: Tables, s': Tables, p: Id, q: Id)
    requires p in s.accounts && q in s.accounts && p != q && Handover(s, s', p, q)
    ensures RowsHandedOver(s, s', p, q)
  {
    hide AliasesMerged, FreshIds, Inherited;
    ContactsHandedOver(s.contacts, p, q);
  }

  lemma ContactsHandedOver(contacts: map<Id, Contact>, p: Id, q: Id)
    ensures ContactRows(contacts, ContactsLeft(contacts, p, q, {}), p, q)
  {
    forall c | c in contacts ensures OnBoth(contacts, p, q, c) <==> Duplicate(contacts, p, q, c) {
      if OnBoth(contacts, p, q, c) {
        var d :| d in contacts && contacts[d].account == p && contacts[d].email == contacts[c].email;
        assert contacts[d] == Contact(p, contacts[c].email);
      }
    }
  }

  // ----- the queue's merge -----

  /** Only the source is deleted; every other account keeps its row, the target included. */
  ghost predicate OnlyDeleted(before: map<Id, Account>, after: map<Id, Account>, q: Id) {
    after.Keys == before.Keys - {q} && forall a :: a in after ==> after[a] == before[a]
  }

  /** A link to a contact that goes leads to the contact of p with that email, and every other link stays. */
  ghost predicate LinksFollow(s: Tables, s': Tables, p: Id) {
    && s'.participants.Keys == s.participants.Keys
    && (forall x :: x in s.participants ==>
          if s.participants[x].Some? && s.participants[x].value in s.contacts && s.participants[x].value !in s'.contacts
          then s'.participants[x].Some? && s'.participants[x].value in s.contacts
               && s.contacts[s'.participants[x].value].account == p
               && s.contacts[s'.participants[x].value].email == s.contacts[s.participants[x].value].email
          else s'.participants[x] == s.participants[x])
  }

  /** What the queue's merge does to the rows. */
  ghost predicate QueueMergeRows(s: Tables, s': Tables, p: Id, q: Id) {
    && RowsHandedOver(s, s', p, q) && OnlyDeleted(s.accounts, s'.accounts, q) && LinksFollow(s, s', p)
    && s'.runs == s.runs
  }

  lemma QueueMergedRows(s: Tables, s': Tables, org: Id, p: Id, q: Id)
    requires QueueMerged(s, s', org, p, q)
    ensures QueueMergeRows(s, s', p, q)
  {
    hide RowsHandedOver, Handover, Unblocked;
    HandoverRows(s, s', p, q);
    QueueLinks(s, s', org, p, q);
  }

  lemma QueueLinks(s: Tables, s': Tables, org: Id, p: Id, q: Id)
    requires QueueMerged(s, s', org, p, q)
    ensures LinksFollow(s, s', p)
  {
    hide Unblocked, AliasesMerged, FreshIds, Inherited, Reassign, ReassignOptional, ReassignEvents;
  }

  // ----- the ledger's merge -----

  /** Links to contacts that go are cleared, and every other link stays. */
  ghost predicate LinksDrop(s: Tables, s': Tables) {
    && s'.participants.Keys == s.participants.Keys
    && (forall x :: x in s.participants ==>
          if s.participants[x].Some? && s.participants[x].value in s.contacts && s.participants[x].value !in s'.contacts
          then s'.participants[x].None?
          else s'.participants[x] == s.participants[x])
  }

  /** The secondary is deleted, the primary's missing columns are filled from it, and every other account keeps its row. */
  ghost predicate PrimaryFilled(before: map<Id, Account>, after: map<Id, Account>, p: Id, q: Id) {
    && after.Keys == before.Keys - {q}
    && (forall a :: a in after && a != p ==> after[a] == before[a])
    && p in before && q in before && p in after && FilledFrom(before[p], before[q], after[p])
  }

  /** The new ledger row records who was merged, what the deleted account was, and which rows passed on; other rows stay. */
  ghost predicate MergeRecorded(s: Tables, s': Tables, org: Id, p: Id, q: Id, run: nat) {
    && run !in s.runs && s'.runs.Keys == s.runs.Keys + {run} && (forall r :: r in s.runs ==> s'.runs[r] == s.runs[r])
    && q in s.accounts
    && var row, gone := s'.runs[run], s.accounts[q];
       && row.org == org && row.primary == p && row.secondary == q && row.status == Completed
       && row.snapshot.name == gone.name && row.snapshot.domain == gone.domain && row.snapshot.industry == gone.industry
       && row.snapshot.employeeCount == gone.employeeCount && row.snapshot.annualRevenue == gone.annualRevenue
       && (forall c :: c in row.movedContacts <==> c in s.contacts && s.contacts[c].account == q && c in s'.contacts)
       && (forall c :: c in row.movedCalls <==> c in s.calls && s.calls[c].Some? && s.calls[c].value == q)
       && (forall t :: t in row.movedStories <==> t in s.stories && s.stories[t] == q)
  }

  /** What the ledger's merge does to the rows. */
  ghost predicate ExecuteMergeRows(s: Tables, s': Tables, org: Id, p: Id, q: Id, run: nat) {
    && RowsHandedOver(s, s', p, q) && PrimaryFilled(s.accounts, s'.accounts, p, q) && LinksDrop(s, s')
    && MergeRecorded(s, s', org, p, q, run)
  }

  lemma ExecuteMergedRows(s: Tables, s': Tables, org: Id, p: Id, q: Id, run: nat)
    requires FreshIds(s) && ExecuteMerged(s, s', org, p, q, run)
    ensures ExecuteMergeRows(s, s', org, p, q, run)
  {
    CrmColumnsFill(s.accounts[p], s.accounts[q]);
    assert run !in s.runs;
    hide FreshIds, RowsHandedOver, Unblocked, WithCrmIds, FilledFrom, CopiesSalesforceId, LinksDrop, MergeRecorded;
    HandoverRows(s, s', p, q) by { hide Handover; }
    LedgerLinks(s, s', p, q) by { hide ContactsLeft, LinksCleared; }
    LedgerRow(s, s', org, p, q, run) by { hide ContactsLeft; }
  }

  lemma LedgerLinks(s: Tables, s': Tables, p: Id, q: Id)
    requires s'.contacts == ContactsLeft(s.contacts, p, q, {}) && s'.participants == LinksCleared(s.participants, s.contacts, p, q, {})
    ensures LinksDrop(s, s')
  {
  }

  lemma LedgerRow(s: Tables, s': Tables, org: Id, p: Id, q: Id, run: nat)
    requires q in s.accounts && run !in s.runs && s'.runs == s.runs[run := RunOf(s, org, p, q)]
    requires s'.contacts == ContactsLeft(s.contacts, p, q, {})
    ensures MergeRecorded(s, s', org, p, q, run)
  {
  }

  // ----- the undo -----

  /** A row the merge moved goes back if it still is with the primary, and every other row stays. */
  ghost predicate BackWith(owner: Id, after: Id, moved: bool, run: MergeRun) {
    after == if moved && owner == run.primary then run.secondary else owner
  }

  /** What an undo does to the rows. */
  ghost predicate UndoRows(s: Tables, s': Tables, r: nat)
    requires r in s.runs
  {
    var run := s.runs[r];
    && s'.contacts.Keys == s.contacts.Keys && s'.calls.Keys == s.calls.Keys && s'.stories.Keys == s.stories.Keys
    && (forall c :: c in s.contacts ==>
          s'.contacts[c].email == s.contacts[c].email && BackWith(s.contacts[c].account, s'.contacts[c].account, c in run.movedContacts, run))
    && (forall c :: c in s.calls ==>
          if s.calls[c].None? then s'.calls[c].None?
          else s'.calls[c].Some? && BackWith(s.calls[c].value, s'.calls[c].value, c in run.movedCalls, run))
    && (forall t :: t in s.stories ==> BackWith(s.stories[t], s'.stories[t], t in run.movedStories, run))
    && s'.participants == s.participants && s'.aliases == s.aliases && s'.events == s.events && s'.grants == s.grants
    && s'.quotes == s.quotes && s'.regenLogs == s.regenLogs
    && s'.runs.Keys == s.runs.Keys && (forall t :: t in s.runs && t != r ==> s'.runs[t] == s.runs[t])
    && s'.runs[r].status == Undone && s'.runs[r].(status := run.status) == run
  }

  /** The deleted account is there again under its id, with the columns of the snapshot; every other account keeps its row. */
  ghost predicate AccountRestored(s: Tables, s': Tables, run: MergeRun) {
    && s'.accounts.Keys == s.accounts.Keys + {run.secondary}
    && (forall a :: a in s.accounts ==> s'.accounts[a] == s.accounts[a] || a == run.secondary)
    && var back := s'.accounts[run.secondary];
       run.secondary !in s.accounts ==>
         && back.org == run.org && back.name == run.snapshot.name && back.domain == run.snapshot.domain
         && back.industry == run.snapshot.industry && back.employeeCount == run.snapshot.employeeCount
         && back.annualRevenue == run.snapshot.annualRevenue
         && back.salesforceId == None && back.hubspotId == None && back.mergeAccountId == None
  }

  lemma OwnersBack(s: Tables, run: MergeRun)
    ensures var contacts, calls, stories := ContactsBack(s.contacts, run), CallsBack(s.calls, run), StoriesBack(s.stories, run);
            && contacts.Keys == s.contacts.Keys && calls.Keys == s.calls.Keys && stories.Keys == s.stories.Keys
            && (forall c :: c in s.contacts ==>
                  contacts[c].email == s.contacts[c].email && BackWith(s.contacts[c].account, contacts[c].account, c in run.movedContacts, run))
            && (forall c :: c in s.calls ==>
                  if s.calls[c].None? then calls[c].None?
                  else calls[c].Some? && BackWith(s.calls[c].value, calls[c].value, c in run.movedCalls, run))
            && (forall t :: t in s.stories ==> BackWith(s.stories[t], stories[t], t in run.movedStories, run))
  {
  }

  lemma AccountBack(s: Tables, s': Tables, run: MergeRun)
    requires s'.accounts == AccountsBack(s.accounts, run)
    ensures AccountRestored(s, s', run)
  {
  }

  lemma UndoneRows(s: Tables, s': Tables, org: Id, r: nat)
    requires UndoneTo(s, s', org, r)
    ensures UndoRows(s, s', r) && AccountRestored(s, s', s.runs[r])
  {
    OwnersBack(s, s.runs[r]);
    hide UndoFits, ContactsBack, CallsBack, StoriesBack, AccountsBack, BackWith, AccountRestored;
    AccountBack(s, s', s.runs[r]);
  }
}
