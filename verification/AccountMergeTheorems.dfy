/**
 What holds over every run of merges, undos and new accounts, and where the two merges agree.
 */
module AccountMergeTheorems {
  import opened Options
  import opened AccountTables
  import opened AccountMergeModel

  // ----- whole runs -----

  datatype Op =
    | ExecuteMerge(org: Id, primary: Id, secondary: Id, run: nat)
    | MergeAccounts(org: Id, source: Id, target: Id)
    | UndoMerge(org: Id, run: nat)
    | CreateAccount(id: Id, account: Account)

  ghost predicate Step(s: Tables, op: Op, s': Tables) {
    match op
    case ExecuteMerge(org, p, q, run) => ExecuteMerged(s, s', org, p, q, run)
    case MergeAccounts(org, source, target) => QueueMerged(s, s', org, target, source)
    case UndoMerge(org, run) => UndoneTo(s, s', org, run)
    case CreateAccount(id, account) => Created(s, s', id, account)
  }

  ghost predicate IsRun(states: seq<Tables>, ops: seq<Op>) {
    && |states| == |ops| + 1
    && (forall i :: 0 <= i < |ops| ==> Step(states[i], ops[i], states[i + 1]))
  }

  lemma StepKeepsConsistent(s: Tables, op: Op, s': Tables)
    requires Consistent(s) && Step(s, op, s')
    ensures Consistent(s')
  {
    hide Consistent, ExecuteMerged, QueueMerged, UndoneTo, Created;
    match op
    case ExecuteMerge(org, p, q, run) => ExecuteMergeKeepsConsistent(s, s', org, p, q, run);
    case MergeAccounts(org, source, target) => QueueMergeKeepsConsistent(s, s', org, target, source);
    case UndoMerge(org, run) => UndoKeepsConsistent(s, s', org, run);
    case CreateAccount(id, account) => CreateKeepsConsistent(s, s', id, account);
  }

  /**
   In every state of every run: all references resolve, (account, email) and (account, domain) are unique,
   participants point at live contacts, and a completed run's secondary account is gone and named by no other.
   */
  lemma {:induction false} EveryRunStaysConsistent(states: seq<Tables>, ops: seq<Op>, k: nat)
    requires IsRun(states, ops) && Consistent(states[0]) && k < |states|
    ensures Consistent(states[k])
  {
    hide Consistent, Step;
    if k > 0 {
      EveryRunStaysConsistent(states, ops, k - 1);
      StepKeepsConsistent(states[k - 1], ops[k - 1], states[k - 1 + 1]);
    }
  }

  ghost function Emails(contacts: map<Id, Contact>): set<string> {
    set c | c in contacts :: contacts[c].email
  }

  lemma DuplicatesLoseNoEmail(contacts: map<Id, Contact>, p: Id, q: Id)
    requires p != q
    ensures Emails(ContactsLeft(contacts, p, q, {})) == Emails(contacts)
  {
    var after := ContactsLeft(contacts, p, q, {});
    forall c | c in contacts ensures contacts[c].email in Emails(after) {
      if Duplicate(contacts, p, q, c) {
        var t := Twin(contacts, p, q, c);
        assert t in after && after[t].email == contacts[c].email;
      } else {
        assert c in after && after[c].email == contacts[c].email;
      }
    }
    forall c | c in after ensures after[c].email in Emails(contacts) {
      assert contacts[c].email == after[c].email;
    }
  }

  ghost predicate SameRows(s: Tables, s': Tables) {
    && s'.calls.Keys == s.calls.Keys && s'.stories.Keys == s.stories.Keys && s'.events.Keys == s.events.Keys
    && s'.grants.Keys == s.grants.Keys && s'.participants.Keys == s.participants.Keys
    && Emails(s'.contacts) == Emails(s.contacts)
  }

  /** Ledger rows stay, and change only from completed to undone. */
  ghost predicate LedgerGrows(s: Tables, s': Tables) {
    forall r :: r in s.runs ==> r in s'.runs && RowMayBecome(s.runs[r], s'.runs[r])
  }

  ghost predicate RowMayBecome(before: MergeRun, after: MergeRun) {
    after == before || (before.status.Completed? && after == before.(status := Undone))
  }

  lemma HandoverConserves(s: Tables, s': Tables, p: Id, q: Id)
    requires p in s.accounts && q in s.accounts && p != q && Handover(s, s', p, q)
    requires s'.participants.Keys == s.participants.Keys
    ensures SameRows(s, s')
  {
    hide AliasesMerged, FreshIds, Inherited;
    DuplicatesLoseNoEmail(s.contacts, p, q);
  }

  lemma UndoConserves(s: Tables, s': Tables, org: Id, r: nat)
    requires UndoneTo(s, s', org, r)
    ensures SameRows(s, s')
  {
    hide UndoFits;
    assert s'.contacts.Keys == s.contacts.Keys;
    assert forall c :: c in s.contacts ==> s'.contacts[c].email == s.contacts[c].email;
  }

  lemma UnchangedRows(s: Tables, s': Tables)
    requires s' == s.(accounts := s'.accounts)
    ensures SameRows(s, s') && LedgerGrows(s, s')
  {
  }

  lemma StepConserves(s: Tables, op: Op, s': Tables)
    requires FreshIds(s) && Step(s, op, s')
    ensures SameRows(s, s') && LedgerGrows(s, s')
  {
    hide SameRows, Handover, UndoFits, Unblocked;
    match op
    case ExecuteMerge(org, p, q, run) =>
      assert run !in s.runs;
      HandoverConserves(s, s', p, q);
    case MergeAccounts(org, q, p) => HandoverConserves(s, s', p, q);
    case UndoMerge(org, run) => UndoConserves(s, s', org, run);
    case CreateAccount(id, account) => UnchangedRows(s, s');
  }

  /** No run loses a call, story, event, grant, participant or email address, or rewrites an undone ledger row. */
  lemma {:induction false} EveryRunConserves(states: seq<Tables>, ops: seq<Op>, k: nat)
    requires IsRun(states, ops) && Consistent(states[0]) && k < |states|
    ensures SameRows(states[0], states[k]) && LedgerGrows(states[0], states[k])
  {
    hide Step, Emails, References, Ledger, UniqueAccounts, UniqueContacts, UniqueEvents, UniqueAliases, FreshIds;
    if k > 0 {
      EveryRunConserves(states, ops, k - 1);
      EveryRunStaysConsistent(states, ops, k - 1);
      StepConserves(states[k - 1], ops[k - 1], states[k - 1 + 1]);
    }
  }

  /** The quotes of an account are deleted with it. */
  predicate Deletes(op: Op, account: Id) {
    match op
    case ExecuteMerge(_, _, secondary, _) => secondary == account
    case MergeAccounts(_, source, _) => source == account
    case UndoMerge(_, _) => false
    case CreateAccount(_, _) => false
  }

  lemma StepDeletesQuotes(s: Tables, op: Op, s': Tables)
    requires Step(s, op, s')
    ensures s'.quotes == map k | k in s.quotes && !Deletes(op, s.quotes[k]) :: s.quotes[k]
  {
    hide UndoFits, Unblocked, AliasesMerged, UniqueAccounts;
  }

  /** Over every run a quote is lost exactly when a merge deletes its account; no undo brings it back, and none appears. */
  lemma {:induction false} QuotesGoWithTheirAccount(states: seq<Tables>, ops: seq<Op>, k: nat)
    requires IsRun(states, ops) && k < |states|
    ensures states[k].quotes.Keys <= states[0].quotes.Keys
    ensures forall x :: x in states[0].quotes ==>
              && (x in states[k].quotes <==> forall i :: 0 <= i < k ==> !Deletes(ops[i], states[0].quotes[x]))
              && (x in states[k].quotes ==> states[k].quotes[x] == states[0].quotes[x])
  {
    hide Step, Deletes;
    if k > 0 {
      QuotesGoWithTheirAccount(states, ops, k - 1);
      StepDeletesQuotes(states[k - 1], ops[k - 1], states[k - 1 + 1]);
    }
  }

  // ----- other accounts -----

  /** Every row that belongs to the account is the same in both states. */
  ghost predicate Untouched(s: Tables, s': Tables, third: Id) {
    && (third in s'.accounts <==> third in s.accounts)
    && (third in s.accounts ==> s'.accounts[third] == s.accounts[third])
    && (forall c :: c in s.contacts && s.contacts[c].account == third ==> c in s'.contacts && s'.contacts[c] == s.contacts[c])
    && (forall c :: c in s.calls && s.calls[c] == Some(third) ==> c in s'.calls && s'.calls[c] == Some(third))
    && (forall t :: t in s.stories && s.stories[t] == third ==> t in s'.stories && s'.stories[t] == third)
    && (forall i :: i in s.aliases && s.aliases[i].account == third ==> i in s'.aliases && s'.aliases[i] == s.aliases[i])
    && (forall e :: e in s.events && s.events[e].account == third ==> e in s'.events && s'.events[e] == s.events[e])
    && (forall g :: g in s.grants && s.grants[g] == Some(third) ==> g in s'.grants && s'.grants[g] == Some(third))
    && (forall k :: k in s.quotes && s.quotes[k] == third ==> k in s'.quotes && s'.quotes[k] == third)
  }

  lemma HandoverLeavesOthers(s: Tables, s': Tables, p: Id, q: Id, third: Id)
    requires p in s.accounts && q in s.accounts && Handover(s, s', p, q) && third != p && third != q
    requires third in s'.accounts <==> third in s.accounts
    requires third in s.accounts ==> s'.accounts[third] == s.accounts[third]
    ensures Untouched(s, s', third)
  {
  }

  /** Neither merge nor undo touches a row that belongs to a third account. */
  lemma ThirdAccountsUntouched(s: Tables, op: Op, s': Tables, third: Id)
    requires Step(s, op, s')
    requires match op
             case ExecuteMerge(_, p, q, _) => third != p && third != q
             case MergeAccounts(_, q, p) => third != p && third != q
             case UndoMerge(_, r) => third != s.runs[r].primary && third != s.runs[r].secondary
             case CreateAccount(id, _) => third != id
    ensures Untouched(s, s', third)
  {
    match op
    case ExecuteMerge(_, p, q, _) =>
      hide Untouched, Handover, Unblocked;
      HandoverLeavesOthers(s, s', p, q, third);
    case MergeAccounts(_, q, p) =>
      hide Untouched, Handover, Unblocked;
      HandoverLeavesOthers(s, s', p, q, third);
    case UndoMerge(org, r) =>
      UndoLeavesOthers(s, s', org, r, third);
    case CreateAccount(id, account) =>
  }

  lemma UndoLeavesOthers(s: Tables, s': Tables, org: Id, r: nat, third: Id)
    requires UndoneTo(s, s', org, r) && third != s.runs[r].primary && third != s.runs[r].secondary
    ensures Untouched(s, s', third)
  {
  }

  // ----- the two merges compared -----

  ghost predicate EmailBehind(s: Tables, x: Id, email: string) {
    && x in s.participants && s.participants[x].Some?
    && s.participants[x].value in s.contacts && s.contacts[s.participants[x].value].email == email
  }

  /** From the same state both merges leave the same owners, the same contacts and the same domain coverage. */
  lemma MergesAgree(s: Tables, a: Tables, b: Tables, org: Id, p: Id, q: Id, run: nat)
    requires Consistent(s) && ExecuteMerged(s, a, org, p, q, run) && QueueMerged(s, b, org, p, q)
    ensures a.contacts == b.contacts && a.calls == b.calls && a.stories == b.stories
    ensures a.events == b.events && a.grants == b.grants && a.quotes == b.quotes
    ensures a.accounts.Keys == b.accounts.Keys && p in a.accounts
    ensures Coverage(a, p) == Coverage(b, p)
  {
    hide Consistent, UniqueAliases, FreshIds, Unblocked, ReassignOptional, Reassign, ContactsLeft, LinksCleared, LinksRedirected,
         ReassignEvents, AliasDomains, Inherited, RunOf;
    assert a.accounts[p] == WithCrmIds(s.accounts[p], s.accounts[q]) && b.accounts[p] == s.accounts[p];
  }

  /** The queue's merge keeps the email behind every participant link. */
  lemma QueueMergeKeepsLinkedEmails(s: Tables, b: Tables, org: Id, p: Id, q: Id, x: Id, email: string)
    requires Consistent(s) && QueueMerged(s, b, org, p, q)
    ensures EmailBehind(s, x, email) ==> EmailBehind(b, x, email)
  {
    hide Consistent, AliasesMerged, FreshIds, Unblocked, ReassignOptional, Reassign, ReassignEvents, EmailOn;
    if EmailBehind(s, x, email) {
      LinkLeadsToEmail(s.participants, s.contacts, p, q, x);
    }
  }

  lemma LinkLeadsToEmail(participants: map<Id, Option<Id>>, contacts: map<Id, Contact>, p: Id, q: Id, x: Id)
    requires p != q && x in participants && participants[x].Some? && participants[x].value in contacts
    ensures var y := LinksRedirected(participants, contacts, p, q, {})[x];
            var after := ContactsLeft(contacts, p, q, {});
            y.Some? && y.value in after && after[y.value].email == contacts[participants[x].value].email
  {
  }

  /** The ledger's merge keeps the email behind a link exactly when the linked contact is no duplicate. */
  lemma ExecuteMergeKeepsLinkedEmails(s: Tables, a: Tables, org: Id, p: Id, q: Id, run: nat, x: Id, email: string)
    requires Consistent(s) && ExecuteMerged(s, a, org, p, q, run) && EmailBehind(s, x, email)
    ensures EmailBehind(a, x, email) <==> !Duplicate(s.contacts, p, q, s.participants[x].value)
  {
    hide Consistent, AliasesMerged, FreshIds, Unblocked, ReassignOptional, Reassign, ReassignEvents, EmailOn;
  }

  /**
   Either merge makes the primary cover exactly what both accounts covered, unless the primary's own domain
   is the empty string and only the secondary had that as an alias: then that alias is dropped.
   */
  lemma CoverageIsTheUnion(s: Tables, s': Tables, p: Id, q: Id)
    requires p in s.accounts && q in s.accounts && p in s'.accounts && Handover(s, s', p, q)
    requires s'.accounts[p].domain == s.accounts[p].domain
    ensures Coverage(s', p) == Coverage(s, p) + Coverage(s, q) <==>
            !(s.accounts[p].domain == Some("") && "" in AliasDomains(s.aliases, q) - AliasDomains(s.aliases, p))
  {
  }
}
