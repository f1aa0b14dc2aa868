/**
 The tables the account merges work on, as maps from row id to row, with the constraints the database
 schema declares on them (prisma/schema.prisma).  Only the columns the merges read or write are kept.
 */
module AccountTables {
  import opened Options

  type Id = string

  datatype Account = Account(
    org: Id, name: string, domain: Option<string>,
    salesforceId: Option<string>, hubspotId: Option<string>, mergeAccountId: Option<string>,
    industry: Option<string>, employeeCount: Option<int>, annualRevenue: Option<real>)

  datatype Contact = Contact(account: Id, email: string)
  datatype Alias = Alias(account: Id, domain: string)
  datatype Event = Event(account: Id, opportunity: Option<string>, stage: Option<string>)

  datatype RunStatus = Completed | Undone

  /** What the stored preview keeps of the deleted account. */
  datatype Snapshot = Snapshot(
    name: string, domain: Option<string>, industry: Option<string>, employeeCount: Option<int>, annualRevenue: Option<real>)

  datatype MergeRun = MergeRun(
    org: Id, primary: Id, secondary: Id, status: RunStatus, snapshot: Snapshot,
    movedContacts: set<Id>, movedCalls: set<Id>, movedStories: set<Id>)

  /** Calls and grants may have no account; regeneration logs block the deletion of theirs. */
  datatype Tables = Tables(
    accounts: map<Id, Account>, contacts: map<Id, Contact>, calls: map<Id, Option<Id>>, stories: map<Id, Id>,
    participants: map<Id, Option<Id>>, aliases: map<nat, Alias>, events: map<Id, Event>, grants: map<Id, Option<Id>>,
    quotes: map<Id, Id>, regenLogs: map<Id, Id>, runs: map<nat, MergeRun>, nextId: nat)

  // ----- declared constraints -----

  predicate UniqueContacts(contacts: map<Id, Contact>) {
    forall c, d :: c in contacts && d in contacts && contacts[c] == contacts[d] ==> c == d
  }

  ghost predicate UniqueAliases(aliases: map<nat, Alias>) {
    forall i, j :: i in aliases && j in aliases && aliases[i] == aliases[j] ==> i == j
  }

  /** Rows with a null opportunity or stage never clash. */
  predicate SameOpportunity(e: Event, f: Event) {
    e.opportunity.Some? && e.stage.Some? && e.opportunity == f.opportunity && e.stage == f.stage
  }

  ghost predicate UniqueEvents(events: map<Id, Event>) {
    forall e, f :: e in events && f in events && e != f && events[e].account == events[f].account ==>
      !SameOpportunity(events[e], events[f])
  }

  ghost predicate UniqueAccounts(accounts: map<Id, Account>) {
    && (forall a, b :: a in accounts && b in accounts && a != b && accounts[a].org == accounts[b].org ==>
          (accounts[a].domain.Some? ==> accounts[a].domain != accounts[b].domain))
    && (forall a, b :: a in accounts && b in accounts && a != b && accounts[a].org == accounts[b].org ==>
          (accounts[a].salesforceId.Some? ==> accounts[a].salesforceId != accounts[b].salesforceId))
  }

  /** Every row that names an account names one that exists; every linked participant names a contact. */
  ghost predicate References(s: Tables) {
    && (forall c :: c in s.contacts ==> s.contacts[c].account in s.accounts)
    && (forall c :: c in s.calls && s.calls[c].Some? ==> s.calls[c].value in s.accounts)
    && (forall t :: t in s.stories ==> s.stories[t] in s.accounts)
    && (forall i :: i in s.aliases ==> s.aliases[i].account in s.accounts)
    && (forall e :: e in s.events ==> s.events[e].account in s.accounts)
    && (forall g :: g in s.grants && s.grants[g].Some? ==> s.grants[g].value in s.accounts)
    && (forall q :: q in s.quotes ==> s.quotes[q] in s.accounts)
    && (forall l :: l in s.regenLogs ==> s.regenLogs[l] in s.accounts)
    && (forall p :: p in s.participants && s.participants[p].Some? ==> s.participants[p].value in s.contacts)
  }

  /** The secondary account of a completed run is gone, and no other completed run names it. */
  ghost predicate Ledger(runs: map<nat, MergeRun>, accounts: map<Id, Account>) {
    && (forall r :: r in runs && runs[r].status.Completed? ==> runs[r].secondary !in accounts)
    && (forall r, t :: r in runs && t in runs && r != t && runs[r].status.Completed? && runs[t].status.Completed? ==>
          runs[r].secondary != runs[t].secondary)
  }

  ghost predicate FreshIds(s: Tables) {
    && (forall i :: i in s.aliases ==> i < s.nextId)
    && (forall r :: r in s.runs ==> r < s.nextId)
  }

  ghost predicate Consistent(s: Tables) {
    && References(s)
    && UniqueContacts(s.contacts) && UniqueAliases(s.aliases) && UniqueEvents(s.events) && UniqueAccounts(s.accounts)
    && Ledger(s.runs, s.accounts)
    && FreshIds(s)
  }

  // ----- reassignment -----

  function Reassign(owners: map<Id, Id>, from: Id, to: Id): map<Id, Id> {
    map k | k in owners :: if owners[k] == from then to else owners[k]
  }

  function ReassignOptional(owners: map<Id, Option<Id>>, from: Id, to: Id): map<Id, Option<Id>> {
    map k | k in owners :: if owners[k] == Some(from) then Some(to) else owners[k]
  }

  function ReassignEvents(events: map<Id, Event>, from: Id, to: Id): map<Id, Event> {
    map e | e in events :: if events[e].account == from then events[e].(account := to) else events[e]
  }

  /** Moving the events of one account onto another violates their uniqueness. */
  predicate EventsClash(events: map<Id, Event>, p: Id, q: Id) {
    exists e, f :: e in events && f in events && events[e].account == p && events[f].account == q
                   && SameOpportunity(events[e], events[f])
  }

  // ----- contacts -----

  predicate EmailOn(contacts: map<Id, Contact>, account: Id, email: string) {
    exists c :: c in contacts && contacts[c] == Contact(account, email)
  }

  /** A contact of q whose email p already has. */
  predicate Duplicate(contacts: map<Id, Contact>, p: Id, q: Id, c: Id)
    requires c in contacts
  {
    contacts[c].account == q && EmailOn(contacts, p, contacts[c].email)
  }

  /** The contact of p that a duplicate stands beside. */
  ghost function Twin(contacts: map<Id, Contact>, p: Id, q: Id, c: Id): (t: Id)
    requires c in contacts && Duplicate(contacts, p, q, c)
    ensures t in contacts && contacts[t] == Contact(p, contacts[c].email)
  {
    var t :| t in contacts && contacts[t] == Contact(p, contacts[c].email);
    t
  }

  function Rehomed(contact: Contact, p: Id, q: Id): Contact {
    if contact.account == q then contact.(account := p) else contact
  }

  /** Contacts once those outside todo are dealt with: duplicates of q dropped, the others moved to p. */
  ghost function ContactsLeft(contacts: map<Id, Contact>, p: Id, q: Id, todo: set<Id>): map<Id, Contact> {
    map c | c in contacts && (c in todo || !Duplicate(contacts, p, q, c)) ::
      if c in todo then contacts[c] else Rehomed(contacts[c], p, q)
  }

  // ----- domain coverage -----

  function AliasDomains(aliases: map<nat, Alias>, account: Id): set<string> {
    set i | i in aliases && aliases[i].account == account :: aliases[i].domain
  }

  function MainDomain(account: Account): set<string> {
    if Truthy(account.domain) then {account.domain.value} else {}
  }

  /** Every domain that leads to the account. */
  function Coverage(s: Tables, account: Id): set<string>
    requires account in s.accounts
  {
    MainDomain(s.accounts[account]) + AliasDomains(s.aliases, account)
  }

  /** The aliases a merge of q into p has to add: what q covers, unless it is p's own domain. */
  ghost function Inherited(primary: Account, secondary: Account, aliases: map<nat, Alias>, q: Id): set<string> {
    set d | d in MainDomain(secondary) + AliasDomains(aliases, q) && primary.domain != Some(d)
  }

  /** Alias rows after q's are handed to p: other rows stay, no row is left on q, p gains exactly added. */
  ghost predicate AliasesMerged(before: map<nat, Alias>, after: map<nat, Alias>, p: Id, q: Id, added: set<string>) {
    && (forall i :: i in before && before[i].account != q ==> i in after && after[i] == before[i])
    && (forall i :: i in after && (i !in before || before[i].account == q) ==> after[i].account == p)
    && AliasDomains(after, p) == AliasDomains(before, p) + added
    && UniqueAliases(after)
  }
}
