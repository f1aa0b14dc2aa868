/**
 Which undos the database takes, what an undo gives back, and how merges and undos nest.
 */
module AccountMergeUndo {
  import opened Options
  import opened AccountTables
  import opened AccountMergeModel
  import opened AccountMergeTheorems

  // ----- when an undo goes through -----

  /** The database takes the undo of a completed run exactly when no account has taken the domain of the deleted one. */
  lemma UndoFitsIffDomainFree(s: Tables, org: Id, r: nat)
    requires Consistent(s) && MayUndo(s, org, r)
    ensures UndoFits(s, s.runs[r]) <==> DomainFree(s.accounts, org, s.runs[r].snapshot.domain)
  {
    hide UniqueAliases, UniqueEvents, UniqueAccounts, FreshIds;
  }

  /** Every completed run can be undone. */
  ghost predicate AllUndosOpen(s: Tables) {
    forall r :: r in s.runs && s.runs[r].status.Completed? ==> UndoFits(s, s.runs[r])
  }

  /** The domain of a deleted account is held neither by an account of its organization nor by another completed run. */
  ghost predicate DomainsReserved(runs: map<nat, MergeRun>, accounts: map<Id, Account>) {
    && (forall r :: r in runs && runs[r].status.Completed? ==> DomainFree(accounts, runs[r].org, runs[r].snapshot.domain))
    && (forall r, t :: r in runs && t in runs && r != t && runs[r].status.Completed? && runs[t].status.Completed?
                       && runs[r].org == runs[t].org ==>
          (runs[r].snapshot.domain.Some? ==> runs[r].snapshot.domain != runs[t].snapshot.domain))
  }

  /** The new account has the domain of one that a completed run of its organization deleted. */
  ghost predicate TakesDomain(s: Tables, account: Account) {
    exists r :: r in s.runs && s.runs[r].status.Completed? && s.runs[r].org == account.org
                && account.domain.Some? && s.runs[r].snapshot.domain == account.domain
  }

  lemma NewRunKeepsReserved(runs: map<nat, MergeRun>, accounts: map<Id, Account>, accounts': map<Id, Account>, run: nat, row: MergeRun)
    requires DomainsReserved(runs, accounts) && UniqueAccounts(accounts) && run !in runs
    requires row.secondary in accounts && accounts[row.secondary].org == row.org
    requires row.snapshot.domain == accounts[row.secondary].domain
    requires accounts'.Keys == accounts.Keys - {row.secondary}
    requires forall a :: a in accounts' ==> accounts'[a].org == accounts[a].org && accounts'[a].domain == accounts[a].domain
    ensures DomainsReserved(runs[run := row], accounts')
  {
    assert forall a :: a in accounts' ==> a in accounts && a != row.secondary;
  }

  lemma UndoKeepsReserved(s: Tables, r: nat)
    requires DomainsReserved(s.runs, s.accounts) && r in s.runs && s.runs[r].status.Completed? && s.runs[r].secondary !in s.accounts
    ensures DomainsReserved(s.runs[r := s.runs[r].(status := Undone)],
                            s.accounts[s.runs[r].secondary := Restored(s.runs[r].org, s.runs[r].snapshot)])
  {
  }

  lemma FewerAccountsReserved(runs: map<nat, MergeRun>, accounts: map<Id, Account>, q: Id)
    requires DomainsReserved(runs, accounts)
    ensures DomainsReserved(runs, accounts - {q})
  {
  }

  /** A new account keeps the domains reserved exactly when it takes none of them. */
  lemma CreateAndReserved(s: Tables, s': Tables, id: Id, account: Account)
    requires DomainsReserved(s.runs, s.accounts) && Created(s, s', id, account)
    ensures DomainsReserved(s'.runs, s'.accounts) <==> !TakesDomain(s, account)
  {
    hide UniqueAccounts;
    if TakesDomain(s, account) {
      var r :| r in s.runs && s.runs[r].status.Completed? && s.runs[r].org == account.org
               && account.domain.Some? && s.runs[r].snapshot.domain == account.domain;
      assert s'.accounts[id] == account;
      assert !DomainFree(s'.accounts, s.runs[r].org, s.runs[r].snapshot.domain);
    }
  }

  lemma MergeKeepsReserved(s: Tables, s': Tables, org: Id, p: Id, q: Id, run: nat)
    requires UniqueAccounts(s.accounts) && FreshIds(s) && DomainsReserved(s.runs, s.accounts)
    requires MayMerge(s, org, p, q) && s.nextId <= run && s'.runs == s.runs[run := RunOf(s, org, p, q)]
    requires s'.accounts == s.accounts[p := WithCrmIds(s.accounts[p], s.accounts[q])] - {q}
    ensures DomainsReserved(s'.runs, s'.accounts)
  {
    hide UniqueAccounts, DomainsReserved, WithCrmIds, RunOf;
    CrmColumnsLeaveIdentity(s.accounts[p], s.accounts[q]);
    RunNamesSecondary(s, org, p, q);
    NewRunKeepsReserved(s.runs, s.accounts, s'.accounts, run, RunOf(s, org, p, q));
  }

  lemma StepAndReserved(s: Tables, op: Op, s': Tables)
    requires Consistent(s) && Step(s, op, s') && DomainsReserved(s.runs, s.accounts)
    requires op.CreateAccount? ==> !TakesDomain(s, op.account)
    ensures DomainsReserved(s'.runs, s'.accounts)
  {
    ConsistentParts(s);
    hide Consistent, UniqueAccounts, FreshIds, DomainsReserved, TakesDomain, Handover, Unblocked, UndoFits, WithCrmIds, RunOf,
         CopiesSalesforceId, MayMerge;
    match op
    case ExecuteMerge(org, p, q, run) => MergeKeepsReserved(s, s', org, p, q, run);
    case MergeAccounts(org, q, p) => FewerAccountsReserved(s.runs, s.accounts, q);
    case UndoMerge(org, r) => UndoKeepsReserved(s, r);
    case CreateAccount(id, account) => CreateAndReserved(s, s', id, account);
  }

  lemma ConsistentParts(s: Tables)
    requires Consistent(s)
    ensures UniqueAccounts(s.accounts) && FreshIds(s)
    ensures forall r :: r in s.runs && s.runs[r].status.Completed? ==> s.runs[r].secondary !in s.accounts
  {
  }

  lemma RunNamesSecondary(s: Tables, org: Id, p: Id, q: Id)
    requires q in s.accounts
    ensures var row := RunOf(s, org, p, q);
            row.org == org && row.primary == p && row.secondary == q && row.status == Completed && row.snapshot.domain == s.accounts[q].domain
  {
  }

  /** A new account with the domain of one that a completed run deleted makes the database refuse that run's undo. */
  lemma TakenDomainBlocksUndo(s: Tables, s': Tables, id: Id, account: Account)
    requires Consistent(s) && Created(s, s', id, account) && TakesDomain(s, account)
    ensures Consistent(s') && !AllUndosOpen(s')
  {
    CreateKeepsConsistent(s, s', id, account) by { hide Created, Consistent; }
    var r :| r in s.runs && s.runs[r].status.Completed? && s.runs[r].org == account.org
             && account.domain.Some? && s.runs[r].snapshot.domain == account.domain;
    hide Consistent, UndoFits;
    assert s'.accounts[id] == account;
    UndoFitsIffDomainFree(s', s'.runs[r].org, r);
  }

  lemma ReservedMeansOpen(s: Tables)
    requires Consistent(s) && DomainsReserved(s.runs, s.accounts)
    ensures AllUndosOpen(s)
  {
    hide Consistent, UndoFits, DomainFree;
    forall r | r in s.runs && s.runs[r].status.Completed? ensures UndoFits(s, s.runs[r]) {
      UndoFitsIffDomainFree(s, s.runs[r].org, r);
    }
  }

  ghost predicate NoDomainTaken(states: seq<Tables>, ops: seq<Op>)
    requires |states| == |ops| + 1
  {
    forall i :: 0 <= i < |ops| && ops[i].CreateAccount? ==> !TakesDomain(states[i], ops[i].account)
  }

  lemma {:induction false} RunStaysReserved(states: seq<Tables>, ops: seq<Op>, k: nat)
    requires IsRun(states, ops) && Consistent(states[0]) && DomainsReserved(states[0].runs, states[0].accounts) && k < |states|
    requires NoDomainTaken(states, ops)
    ensures DomainsReserved(states[k].runs, states[k].accounts)
  {
    hide Consistent, Step, DomainsReserved, TakesDomain;
    if k > 0 {
      RunStaysReserved(states, ops, k - 1);
      EveryRunStaysConsistent(states, ops, k - 1);
      StepAndReserved(states[k - 1], ops[k - 1], states[k - 1 + 1]);
    }
  }

  /**
   Over a whole run of merges, undos and new accounts every completed merge can be undone in every state exactly when
   no new account takes the domain of a deleted one.
   */
  lemma UndosStayOpenIff(states: seq<Tables>, ops: seq<Op>)
    requires IsRun(states, ops) && Consistent(states[0]) && DomainsReserved(states[0].runs, states[0].accounts)
    ensures (forall k :: 0 <= k < |states| ==> AllUndosOpen(states[k])) <==> NoDomainTaken(states, ops)
  {
    hide Consistent, DomainsReserved, TakesDomain, AllUndosOpen;
    if NoDomainTaken(states, ops) {
      forall k | 0 <= k < |states| ensures AllUndosOpen(states[k]) {
        hide Step;
        RunStaysReserved(states, ops, k);
        EveryRunStaysConsistent(states, ops, k);
        ReservedMeansOpen(states[k]);
      }
    } else {
      var i :| 0 <= i < |ops| && ops[i].CreateAccount? && TakesDomain(states[i], ops[i].account);
      EveryRunStaysConsistent(states, ops, i);
      hide Created;
      assert Step(states[i], ops[i], states[i + 1]);
      TakenDomainBlocksUndo(states[i], states[i + 1], ops[i].id, ops[i].account);
    }
  }

  // ----- what an undo gives back -----

  lemma CallsRoundTrip(calls: map<Id, Option<Id>>, run: MergeRun)
    requires run.primary != run.secondary && run.movedCalls == OwnedOptional(calls, run.secondary)
    ensures CallsBack(ReassignOptional(calls, run.secondary, run.primary), run) == calls
  {
  }

  lemma StoriesRoundTrip(stories: map<Id, Id>, run: MergeRun)
    requires run.primary != run.secondary && run.movedStories == Owned(stories, run.secondary)
    ensures StoriesBack(Reassign(stories, run.secondary, run.primary), run) == stories
  {
  }

  ghost function WithoutDuplicates(contacts: map<Id, Contact>, p: Id, q: Id): map<Id, Contact> {
    map c | c in contacts && !Duplicate(contacts, p, q, c) :: contacts[c]
  }

  lemma ContactsRoundTrip(contacts: map<Id, Contact>, run: MergeRun)
    requires run.primary != run.secondary && run.movedContacts == MovedContacts(contacts, run.primary, run.secondary)
    ensures ContactsBack(ContactsLeft(contacts, run.primary, run.secondary, {}), run)
            == WithoutDuplicates(contacts, run.primary, run.secondary)
  {
  }

  /** Everything a merge followed at once by its undo leaves as it was, and everything it does not. */
  lemma MergeThenUndo(s: Tables, s1: Tables, s2: Tables, org: Id, p: Id, q: Id, run: nat)
    requires Consistent(s) && ExecuteMerged(s, s1, org, p, q, run) && UndoneTo(s1, s2, org, run)
    ensures s2.calls == s.calls && s2.stories == s.stories
    ensures s2.contacts == WithoutDuplicates(s.contacts, p, q)
    ensures s2.accounts == s.accounts[p := WithCrmIds(s.accounts[p], s.accounts[q])]
                                     [q := s.accounts[q].(salesforceId := None, hubspotId := None, mergeAccountId := None)]
    ensures s2.participants == LinksCleared(s.participants, s.contacts, p, q, {})
    ensures s2.events == ReassignEvents(s.events, q, p) && s2.grants == ReassignOptional(s.grants, q, p)
    ensures s2.quotes == map k | k in s.quotes && s.quotes[k] != q :: s.quotes[k]
    ensures forall o :: !MayUndo(s2, o, run)
  {
    hide Consistent, AliasesMerged, UndoFits, Unblocked, FreshIds, ReassignOptional, Reassign, ContactsLeft, LinksCleared, CallsBack,
         StoriesBack, ContactsBack, WithoutDuplicates, WithCrmIds, ReassignEvents, OwnedOptional, Owned, MovedContacts;
    var row := RunOf(s, org, p, q);
    assert s1.runs[run] == row && s2.runs[run].status == Undone;
    CallsRoundTrip(s.calls, row);
    StoriesRoundTrip(s.stories, row);
    ContactsRoundTrip(s.contacts, row);
  }

  /** The contact table comes back whole exactly when no email stood on both accounts. */
  lemma ContactsComeBackWhole(contacts: map<Id, Contact>, p: Id, q: Id)
    ensures WithoutDuplicates(contacts, p, q) == contacts <==>
            !exists c, d :: c in contacts && d in contacts && contacts[c].account == p && contacts[d].account == q
                            && contacts[c].email == contacts[d].email
  {
  }

  // ----- nested merges -----

  /** Merges and undos that nest like brackets: whatever follows a merge is undone before that merge is. */
  datatype Nest =
    | Nothing
    | Then(first: Nest, second: Nest)
    | Around(org: Id, primary: Id, secondary: Id, run: nat, inner: Nest)

  ghost predicate Runs(s: Tables, nest: Nest, s': Tables)
    decreases nest
  {
    hide ExecuteMerged, UndoneTo;
    match nest
    case Nothing => s' == s
    case Then(first, second) => exists m :: Runs(s, first, m) && Runs(m, second, s')
    case Around(org, p, q, run, inner) =>
      exists s1, s2 :: ExecuteMerged(s, s1, org, p, q, run) && Runs(s1, inner, s2) && UndoneTo(s2, s', org, run)
  }

  ghost predicate SameIdentity(a: Account, b: Account) {
    a.org == b.org && a.name == b.name && a.domain == b.domain
  }

  /** Calls and stories are back, contacts that still exist are back, and every account is there under its name and domain. */
  ghost predicate GivenBack(s: Tables, s': Tables) {
    && s'.calls == s.calls && s'.stories == s.stories
    && s'.contacts.Keys <= s.contacts.Keys && (forall c :: c in s'.contacts ==> s'.contacts[c] == s.contacts[c])
    && s'.accounts.Keys == s.accounts.Keys && (forall a :: a in s.accounts ==> SameIdentity(s.accounts[a], s'.accounts[a]))
  }

  ghost predicate KeepsRuns(s: Tables, s': Tables) {
    forall r :: r in s.runs ==> r in s'.runs && s'.runs[r] == s.runs[r]
  }

  lemma CrmColumnsLeaveIdentity(primary: Account, secondary: Account)
    ensures SameIdentity(primary, WithCrmIds(primary, secondary))
  {
  }

  lemma ContactsComeBack(before: map<Id, Contact>, during: map<Id, Contact>, run: MergeRun)
    requires run.primary != run.secondary && run.movedContacts == MovedContacts(before, run.primary, run.secondary)
    requires var merged := ContactsLeft(before, run.primary, run.secondary, {});
             during.Keys <= merged.Keys && forall c :: c in during ==> during[c] == merged[c]
    ensures var after := ContactsBack(during, run); after.Keys <= before.Keys && forall c :: c in after ==> after[c] == before[c]
  {
  }

  /** The row a merge wrote is still there when everything after it is undone, and is the only one its undo changes. */
  lemma AroundKeepsRuns(s: Tables, s1: Tables, s2: Tables, s': Tables, org: Id, p: Id, q: Id, run: nat)
    requires FreshIds(s) && ExecuteMerged(s, s1, org, p, q, run) && UndoneTo(s2, s', org, run) && KeepsRuns(s1, s2)
    ensures s2.runs[run] == RunOf(s, org, p, q) && KeepsRuns(s, s')
  {
    hide UndoFits, Unblocked, Handover, WithCrmIds, LinksCleared, CallsBack, StoriesBack, ContactsBack, RunOf, AccountsBack;
    assert run !in s.runs;
    assert s1.runs[run] == s2.runs[run];
  }

  lemma AroundKeepsAccounts(accounts: map<Id, Account>, during: map<Id, Account>, p: Id, q: Id, run: MergeRun)
    requires p in accounts && q in accounts && p != q && run.secondary == q && run.org == accounts[q].org
    requires run.snapshot == SnapshotOf(accounts[q])
    requires var merged := accounts[p := WithCrmIds(accounts[p], accounts[q])] - {q};
             during.Keys == merged.Keys && forall a :: a in merged ==> SameIdentity(merged[a], during[a])
    ensures var after := AccountsBack(during, run);
            after.Keys == accounts.Keys && forall a :: a in accounts ==> SameIdentity(accounts[a], after[a])
  {
    CrmColumnsLeaveIdentity(accounts[p], accounts[q]);
    hide WithCrmIds;
  }

  lemma MergedTables(s: Tables, s1: Tables, org: Id, p: Id, q: Id, run: nat)
    requires ExecuteMerged(s, s1, org, p, q, run)
    ensures MayMerge(s, org, p, q) && s1.contacts == ContactsLeft(s.contacts, p, q, {})
    ensures s1.calls == ReassignOptional(s.calls, q, p) && s1.stories == Reassign(s.stories, q, p)
    ensures s1.accounts == s.accounts[p := WithCrmIds(s.accounts[p], s.accounts[q])] - {q}
  {
  }

  lemma UndoneTables(s: Tables, s': Tables, org: Id, r: nat)
    requires UndoneTo(s, s', org, r)
    ensures s'.accounts == AccountsBack(s.accounts, s.runs[r]) && s'.contacts == ContactsBack(s.contacts, s.runs[r])
    ensures s'.calls == CallsBack(s.calls, s.runs[r]) && s'.stories == StoriesBack(s.stories, s.runs[r])
  {
  }

  lemma AroundGivesBack(s: Tables, s1: Tables, s2: Tables, s': Tables, org: Id, p: Id, q: Id, run: nat)
    requires FreshIds(s) && ExecuteMerged(s, s1, org, p, q, run) && UndoneTo(s2, s', org, run)
    requires GivenBack(s1, s2) && KeepsRuns(s1, s2)
    ensures GivenBack(s, s') && KeepsRuns(s, s')
  {
    hide FreshIds, ExecuteMerged, UndoneTo, ReassignOptional, Reassign, ContactsLeft, CallsBack, StoriesBack, ContactsBack, WithCrmIds,
         OwnedOptional, Owned, MovedContacts, AccountsBack, KeepsRuns, SameIdentity;
    MergedTables(s, s1, org, p, q, run);
    UndoneTables(s2, s', org, run);
    var row := RunOf(s, org, p, q);
    AroundKeepsRuns(s, s1, s2, s', org, p, q, run);
    CallsRoundTrip(s.calls, row);
    StoriesRoundTrip(s.stories, row);
    ContactsComeBack(s.contacts, s2.contacts, row);
    AroundKeepsAccounts(s.accounts, s2.accounts, p, q, row);
  }

  lemma ThenGivesBack(s: Tables, m: Tables, s': Tables)
    requires GivenBack(s, m) && GivenBack(m, s') && KeepsRuns(s, m) && KeepsRuns(m, s') && SameRows(s, m) && SameRows(m, s')
    ensures GivenBack(s, s') && KeepsRuns(s, s') && SameRows(s, s')
  {
  }

  /**
   Undoing nested merges from the inside out gives back every call, every story and every contact that was not
   dropped, brings every account back under its name and domain, and loses no email address.
   */
  lemma {:induction false} NestedUndosGiveBack(s: Tables, nest: Nest, s': Tables)
    requires Consistent(s) && Runs(s, nest, s')
    ensures Consistent(s') && GivenBack(s, s') && KeepsRuns(s, s') && SameRows(s, s')
    decreases nest
  {
    hide Consistent, GivenBack, KeepsRuns, SameRows, ExecuteMerged, UndoneTo;
    match nest
    case Nothing => UnchangedIsGivenBack(s);
    case Then(first, second) =>
      var m :| Runs(s, first, m) && Runs(m, second, s');
      NestedUndosGiveBack(s, first, m);
      NestedUndosGiveBack(m, second, s');
      ThenGivesBack(s, m, s');
    case Around(org, p, q, run, inner) =>
      var s1, s2 :| ExecuteMerged(s, s1, org, p, q, run) && Runs(s1, inner, s2) && UndoneTo(s2, s', org, run);
      StepKeepsConsistent(s, ExecuteMerge(org, p, q, run), s1);
      NestedUndosGiveBack(s1, inner, s2);
      StepKeepsConsistent(s2, UndoMerge(org, run), s');
      ConsistentIdsAreFresh(s);
      AroundGivesBack(s, s1, s2, s', org, p, q, run);
      ConsistentIdsAreFresh(s2);
      StepConserves(s, ExecuteMerge(org, p, q, run), s1);
      StepConserves(s2, UndoMerge(org, run), s');
      SameRowsCompose(s, s1, s2);
      SameRowsCompose(s, s2, s');
  }

  /** A contact whose email no other contact has comes back for sure. */
  lemma UniqueEmailsComeBack(s: Tables, nest: Nest, s': Tables, c: Id)
    requires Consistent(s) && Runs(s, nest, s') && c in s.contacts
    requires forall d :: d in s.contacts && d != c ==> s.contacts[d].email != s.contacts[c].email
    ensures c in s'.contacts && s'.contacts[c] == s.contacts[c]
  {
    hide Consistent, Runs;
    NestedUndosGiveBack(s, nest, s');
    assert s.contacts[c].email in Emails(s'.contacts);
  }

  lemma SameRowsCompose(s: Tables, m: Tables, s': Tables)
    requires SameRows(s, m) && SameRows(m, s')
    ensures SameRows(s, s')
  {
  }

  lemma ConsistentIdsAreFresh(s: Tables)
    requires Consistent(s)
    ensures FreshIds(s)
  {
  }

  lemma UnchangedIsGivenBack(s: Tables)
    ensures GivenBack(s, s) && KeepsRuns(s, s) && SameRows(s, s)
  {
  }

  /** With the same accounts as after the merge, none holds the domain of the deleted one. */
  lemma DeletedDomainIsFree(s: Tables, s1: Tables, s2: Tables, org: Id, p: Id, q: Id, run: nat)
    requires UniqueAccounts(s.accounts) && ExecuteMerged(s, s1, org, p, q, run) && GivenBack(s1, s2)
    ensures DomainFree(s2.accounts, org, s.accounts[q].domain)
  {
    hide Unblocked, Handover, LinksCleared, RunOf, CopiesSalesforceId;
    forall a | a in s2.accounts && s2.accounts[a].org == org ensures s.accounts[q].domain.Some? ==> s2.accounts[a].domain != s.accounts[q].domain {
      assert a in s1.accounts && SameIdentity(s1.accounts[a], s2.accounts[a]);
      assert a in s.accounts && a != q;
    }
  }

  /** When everything after a merge is undone, the database takes the undo of that merge as well. */
  lemma OuterUndoStaysOpen(s: Tables, s1: Tables, nest: Nest, s2: Tables, org: Id, p: Id, q: Id, run: nat)
    requires Consistent(s) && ExecuteMerged(s, s1, org, p, q, run) && Runs(s1, nest, s2)
    ensures MayUndo(s2, org, run) && UndoFits(s2, s2.runs[run])
  {
    StepKeepsConsistent(s, ExecuteMerge(org, p, q, run), s1) by { hide Consistent, ExecuteMerged; }
    NestedUndosGiveBack(s1, nest, s2);
    DeletedDomainIsFree(s, s1, s2, org, p, q, run);
    hide Consistent, Runs, UndoFits, Unblocked, Handover, GivenBack, SameRows;
    assert s1.runs[run] == RunOf(s, org, p, q);
    UndoFitsIffDomainFree(s2, org, run);
  }
}
