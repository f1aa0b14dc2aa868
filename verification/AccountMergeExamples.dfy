/**
 Databases in which what the theorems speak of does happen: a merge that is refused, one that loses a domain, one
 that loses a link, and an undo that is refused.
 */
module AccountMergeExamples {
  import opened Options
  import opened AccountTables
  import opened AccountMergeModel
  import opened AccountMergeTheorems
  import opened AccountMergeUndo
  import opened AccountMergeService

  // ----- a merge that is refused -----

  /** Two accounts of which only the secondary has a Salesforce id: nothing else stands in the way, and the update breaks the key. */
  lemma SalesforceIdBlocksMerge() returns (s: Tables)
    ensures Consistent(s) && MayMerge(s, "org", "p", "q") && Unblocked(s, "p", "q")
    ensures !UniqueAccounts(s.accounts["p" := WithCrmIds(s.accounts["p"], s.accounts["q"])])
  {
    var p := Account("org", "P", None, None, None, None, None, None, None);
    var q := p.(name := "Q", salesforceId := Some("001"));
    s := Tables(map["p" := p, "q" := q], map[], map[], map[], map[], map[], map[], map[], map[], map[], map[], 0);
    assert Consistent(s);
    CopyBreaksTheKey(s.accounts, "p", "q");
  }

  // ----- a merge that loses a domain -----

  /** Two accounts and one alias: the primary's own domain is empty, and so is the alias of the secondary. */
  ghost function EmptyAlias(): Tables {
    var p := Account("org", "P", Some(""), None, None, None, None, None, None);
    Tables(map["p" := p, "q" := p.(name := "Q", domain := None)],
           map[], map[], map[], map[], map[0 := Alias("q", "")], map[], map[], map[], map[], map[], 1)
  }

  lemma EmptyAliasIsConsistent()
    ensures Consistent(EmptyAlias())
  {
    var s := EmptyAlias();
    assert References(s) && UniqueAliases(s.aliases) && FreshIds(s);
    TwoAccountsAreUnique(s.accounts, "p", "q") by { hide References, UniqueAliases, FreshIds; }
    NothingToClash(s) by { hide References, UniqueAliases, UniqueAccounts, FreshIds; }
    hide References, UniqueAliases, UniqueAccounts, FreshIds, UniqueContacts, UniqueEvents, Ledger;
  }

  lemma NothingToClash(s: Tables)
    requires s.contacts == map[] && s.events == map[] && s.runs == map[]
    ensures UniqueContacts(s.contacts) && UniqueEvents(s.events) && Ledger(s.runs, s.accounts)
  {
  }

  /** A merge that loses a domain: the secondary's empty alias is dropped. */
  lemma EmptyAliasIsDropped() returns (s: Tables, s': Tables)
    ensures Consistent(s) && ExecuteMerged(s, s', "org", "p", "q", 1)
    ensures "" in Coverage(s, "q") && Coverage(s', "p") == {}
  {
    hide Consistent, Coverage, WithCrmIds, RunOf, Handover, Unblocked, LinksCleared;
    s := EmptyAlias();
    EmptyAliasIsConsistent();
    s' := s.(accounts := s.accounts["p" := WithCrmIds(s.accounts["p"], s.accounts["q"])] - {"q"}, aliases := map[], nextId := 2,
             runs := map[1 := RunOf(s, "org", "p", "q")]);
    CrmColumnsLeaveDomain(s.accounts["p"], s.accounts["q"]);
    OnlyAliasIsDropped(s, s', "p", "q");
  }

  lemma OnlyAliasIsDropped(s: Tables, s': Tables, p: Id, q: Id)
    requires p in s.accounts && q in s.accounts && s.accounts[p].domain == Some("") && s.accounts[q].domain == None
    requires s.contacts == map[] && s.calls == map[] && s.stories == map[] && s.events == map[] && s.grants == map[]
    requires s.participants == map[] && s.quotes == map[] && s.regenLogs == map[] && s.aliases == map[0 := Alias(q, "")]
    requires s' == s.(accounts := s'.accounts, aliases := map[], nextId := s'.nextId, runs := s'.runs) && s.nextId <= s'.nextId
    requires forall r :: r in s'.runs ==> r < s'.nextId
    ensures Handover(s, s', p, q) && Unblocked(s, p, q)
    ensures LinksCleared(s.participants, s.contacts, p, q, {}) == map[]
    ensures "" in Coverage(s, q) && (p in s'.accounts && s'.accounts[p].domain == s.accounts[p].domain ==> Coverage(s', p) == {})
  {
    assert AliasDomains(s.aliases, q) == {""} by { assert s.aliases[0] == Alias(q, ""); }
    assert Inherited(s.accounts[p], s.accounts[q], s.aliases, q) == {};
    assert AliasesMerged(s.aliases, s'.aliases, p, q, {}) by {
      assert p != q;
      assert AliasDomains(s.aliases, p) == {};
      assert AliasDomains(s'.aliases, p) == {};
    }
    hide AliasesMerged, Inherited;
  }

  lemma CrmColumnsLeaveDomain(primary: Account, secondary: Account)
    ensures WithCrmIds(primary, secondary).domain == primary.domain
  {
  }

  // ----- a merge that loses a link, and the freed domain -----

  /** Without aliases to move, the merge adds at most the secondary's own domain. */
  lemma BareMerge(s: Tables, org: Id, p: Id, q: Id) returns (s': Tables)
    requires MayMerge(s, org, p, q) && Unblocked(s, p, q) && !CopiesSalesforceId(s.accounts[p], s.accounts[q])
    requires FreshIds(s) && s.aliases == map[]
    ensures ExecuteMerged(s, s', org, p, q, s.nextId + 1)
  {
    hide Unblocked, ContactsLeft, ReassignOptional, Reassign, ReassignEvents, WithCrmIds, LinksCleared, RunOf, CopiesSalesforceId;
    var primary, secondary := s.accounts[p], s.accounts[q];
    var aliases := if Truthy(secondary.domain) && primary.domain != secondary.domain then map[s.nextId := Alias(p, secondary.domain.value)]
                   else map[];
    OneAlias(primary, secondary, s.nextId, p, q);
    s' := Tables(s.accounts[p := WithCrmIds(primary, secondary)] - {q}, ContactsLeft(s.contacts, p, q, {}),
                 ReassignOptional(s.calls, q, p), Reassign(s.stories, q, p), LinksCleared(s.participants, s.contacts, p, q, {}),
                 aliases, ReassignEvents(s.events, q, p), ReassignOptional(s.grants, q, p),
                 map k | k in s.quotes && s.quotes[k] != q :: s.quotes[k], s.regenLogs,
                 s.runs[s.nextId + 1 := RunOf(s, org, p, q)], s.nextId + 2);
    hide AliasesMerged, Inherited;
    assert FreshIds(s');
    assert Handover(s, s', p, q);
  }

  lemma OneAlias(primary: Account, secondary: Account, id: nat, p: Id, q: Id)
    requires p != q
    ensures var aliases := if Truthy(secondary.domain) && primary.domain != secondary.domain then map[id := Alias(p, secondary.domain.value)]
                           else map[];
            AliasesMerged(map[], aliases, p, q, Inherited(primary, secondary, map[], q))
  {
    var d := secondary.domain;
    if Truthy(d) && primary.domain != d {
      var aliases := map[id := Alias(p, d.value)];
      assert aliases[id].account == p && aliases[id].domain == d.value;
      assert AliasDomains(aliases, p) == {d.value};
      assert d.value in MainDomain(secondary) && primary.domain != Some(d.value);
      assert Inherited(primary, secondary, map[], q) == {d.value};
    } else {
      assert Inherited(primary, secondary, map[], q) == {};
    }
  }

  /** Two accounts with a domain each, and contacts c and d with one email on both; participant a is linked to the secondary's. */
  ghost function SharedEmail(org: Id, p: Id, q: Id, domain: string, freed: string, c: Id, d: Id, email: string, a: Id): Tables {
    var primary := Account(org, "P", Some(domain), None, None, None, None, None, None);
    Tables(map[p := primary, q := primary.(name := "Q", domain := Some(freed))],
           map[c := Contact(p, email), d := Contact(q, email)],
           map[], map[], map[a := Some(d)], map[], map[], map[], map[], map[], map[], 0)
  }

  lemma SharedEmailFacts(org: Id, p: Id, q: Id, domain: string, freed: string, c: Id, d: Id, email: string, a: Id)
    requires p != q && c != d && domain != freed
    ensures var s := SharedEmail(org, p, q, domain, freed, c, d, email, a);
            && Consistent(s) && MayMerge(s, org, p, q) && Unblocked(s, p, q) && !CopiesSalesforceId(s.accounts[p], s.accounts[q])
            && EmailBehind(s, a, email) && s.participants[a] == Some(d) && Duplicate(s.contacts, p, q, d)
            && s.aliases == map[] && s.nextId == 0 && s.accounts[q].domain == Some(freed)
            && forall id :: id != p && id != q ==> UnusedId(s, id)
  {
    var s := SharedEmail(org, p, q, domain, freed, c, d, email, a);
    assert References(s) && FreshIds(s);
    assert s.contacts[c] == Contact(p, email);
    hide References, UniqueContacts, UniqueAccounts;
    TwoAccountsAreUnique(s.accounts, p, q);
    TwoContactsAreUnique(s.contacts, c, d);
    NoOtherRows(s, p, q);
  }

  lemma TwoAccountsAreUnique(accounts: map<Id, Account>, p: Id, q: Id)
    requires accounts.Keys == {p, q} && accounts[p].domain != accounts[q].domain
    requires accounts[p].salesforceId.None? && accounts[q].salesforceId.None?
    ensures UniqueAccounts(accounts)
  {
  }

  lemma TwoContactsAreUnique(contacts: map<Id, Contact>, c: Id, d: Id)
    requires contacts.Keys == {c, d} && contacts[c] != contacts[d]
    ensures UniqueContacts(contacts)
  {
  }

  lemma NoOtherRows(s: Tables, p: Id, q: Id)
    requires s.aliases == map[] && s.events == map[] && s.runs == map[]
    ensures UniqueAliases(s.aliases) && UniqueEvents(s.events) && Ledger(s.runs, s.accounts) && !EventsClash(s.events, p, q)
  {
  }

  /** The ledger's merge clears the participant's link, and the email behind it is lost. */
  lemma LinkIsCleared() returns (s: Tables, s': Tables)
    ensures Consistent(s) && ExecuteMerged(s, s', "org", "p", "q", s.nextId + 1)
    ensures EmailBehind(s, "a", "x@p.com") && !EmailBehind(s', "a", "x@p.com")
  {
    hide *;
    s := SharedEmail("org", "p", "q", "p.com", "q.com", "c", "d", "x@p.com", "a");
    SharedEmailFacts("org", "p", "q", "p.com", "q.com", "c", "d", "x@p.com", "a");
    s' := LinkIsLost(s, "org", "p", "q", "a", "x@p.com");
  }

  lemma LinkIsLost(s: Tables, org: Id, p: Id, q: Id, a: Id, email: string) returns (s': Tables)
    requires Consistent(s) && MayMerge(s, org, p, q) && Unblocked(s, p, q) && !CopiesSalesforceId(s.accounts[p], s.accounts[q])
    requires s.aliases == map[] && EmailBehind(s, a, email) && Duplicate(s.contacts, p, q, s.participants[a].value)
    ensures ExecuteMerged(s, s', org, p, q, s.nextId + 1) && !EmailBehind(s', a, email)
  {
    hide Consistent, Unblocked, CopiesSalesforceId, ExecuteMerged, Duplicate, MayMerge;
    Facts(s);
    s' := BareMerge(s, org, p, q);
    ExecuteMergeKeepsLinkedEmails(s, s', org, p, q, s.nextId + 1, a, email);
  }

  /** After a merge of any account with a domain, a new account can take that domain, and then the undo is refused. */
  lemma FreedDomainBlocksUndo(s: Tables, s1: Tables, org: Id, p: Id, q: Id, run: nat, id: Id, name: string) returns (s2: Tables)
    requires Consistent(s) && ExecuteMerged(s, s1, org, p, q, run) && s.accounts[q].domain.Some? && UnusedId(s1, id)
    ensures Created(s1, s2, id, NewAccount(org, name, s.accounts[q].domain))
    ensures Consistent(s2) && MayUndo(s2, org, run) && !UndoFits(s2, s2.runs[run])
  {
    var domain := s.accounts[q].domain;
    Facts(s);
    StepKeepsConsistent(s, ExecuteMerge(org, p, q, run), s1) by { hide Consistent, ExecuteMerged; }
    UnchangedIsGivenBack(s1);
    DeletedDomainIsFree(s, s1, s1, org, p, q, run);
    Facts(s1);
    hide Consistent, UniqueAccounts, DomainFree, Handover, Unblocked, WithCrmIds, CopiesSalesforceId, UndoFits;
    NewAccountIsUnique(s1.accounts, org, name, domain, id);
    s2 := s1.(accounts := s1.accounts[id := NewAccount(org, name, domain)]);
    CreateKeepsConsistent(s1, s2, id, NewAccount(org, name, domain));
    RunNamesSecondary(s, org, p, q);
    assert s2.runs[run] == RunOf(s, org, p, q);
    HeldDomain(s2.accounts, id, org, name, domain);
    UndoFitsIffDomainFree(s2, org, run);
  }

  lemma HeldDomain(accounts: map<Id, Account>, id: Id, org: Id, name: string, domain: Option<string>)
    requires id in accounts && accounts[id] == NewAccount(org, name, domain) && domain.Some?
    ensures !DomainFree(accounts, org, domain)
  {
  }

  lemma MergeThenTakeDomain(s: Tables, org: Id, p: Id, q: Id, id: Id, name: string) returns (s1: Tables, s2: Tables)
    requires Consistent(s) && MayMerge(s, org, p, q) && Unblocked(s, p, q) && !CopiesSalesforceId(s.accounts[p], s.accounts[q])
    requires s.aliases == map[] && s.accounts[q].domain.Some? && UnusedId(s, id)
    ensures Step(s, ExecuteMerge(org, p, q, s.nextId + 1), s1)
    ensures Step(s1, CreateAccount(id, NewAccount(org, name, s.accounts[q].domain)), s2)
    ensures MayUndo(s2, org, s.nextId + 1) && !UndoFits(s2, s2.runs[s.nextId + 1])
  {
    hide Consistent, ExecuteMerged, Created, Unblocked, CopiesSalesforceId, UndoFits, MayUndo;
    Facts(s);
    s1 := BareMerge(s, org, p, q);
    StillUnused(s, s1, org, p, q, s.nextId + 1, id);
    s2 := FreedDomainBlocksUndo(s, s1, org, p, q, s.nextId + 1, id, name);
  }

  lemma StillUnused(s: Tables, s1: Tables, org: Id, p: Id, q: Id, run: nat, id: Id)
    requires ExecuteMerged(s, s1, org, p, q, run) && UnusedId(s, id)
    ensures UnusedId(s1, id)
  {
    hide Handover, Unblocked, WithCrmIds, CopiesSalesforceId, LinksCleared;
    RunNamesSecondary(s, org, p, q);
  }

  /** For instance: q is merged into p, n is created with q's domain, and the database refuses the undo. */
  lemma UndoIsRefused() returns (s: Tables, s1: Tables, s2: Tables)
    ensures Consistent(s) && Step(s, ExecuteMerge("org", "p", "q", 1), s1)
    ensures Step(s1, CreateAccount("n", NewAccount("org", "N", Some("q.com"))), s2)
    ensures MayUndo(s2, "org", 1) && !UndoFits(s2, s2.runs[1])
  {
    hide *;
    s := SharedEmail("org", "p", "q", "p.com", "q.com", "c", "d", "x@p.com", "a");
    SharedEmailFacts("org", "p", "q", "p.com", "q.com", "c", "d", "x@p.com", "a");
    s1, s2 := MergeThenTakeDomain(s, "org", "p", "q", "n", "N");
  }
}
