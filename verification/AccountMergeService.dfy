/**
 The merge transactions as the services run them: row by row over the tables, in whatever order the
 database returns the rows, committing all of it or nothing.
 */
module AccountMergeService {
  import opened Options
  import opened AccountTables
  import opened AccountMergeModel
  import opened AccountMergeRows
  import opened AccountMergeTheorems
  import opened AccountMergeUndo

  datatype Error = PrimaryNotFound | SecondaryNotFound | SameAccount | RunNotFound | AlreadyUndone | UniqueViolation | StillReferenced
  datatype Outcome<T> = Committed(value: T) | Refused(error: Error)
  datatype MergeResult = MergeResult(run: nat, contactsMoved: nat, callsMoved: nat, storiesMoved: nat, aliasesAdded: set<string>)

  // ----- contacts, row by row -----

  function RowsOn(contacts: map<Id, Contact>, account: Id): set<Id> {
    set c | c in contacts && contacts[c].account == account
  }

  function ClearLink(participants: map<Id, Option<Id>>, c: Id): map<Id, Option<Id>> {
    map x | x in participants :: if participants[x] == Some(c) then None else participants[x]
  }

  function RedirectLink(participants: map<Id, Option<Id>>, c: Id, e: Id): map<Id, Option<Id>> {
    map x | x in participants :: if participants[x] == Some(c) then Some(e) else participants[x]
  }

  lemma NothingDone(before: map<Id, Contact>, links: map<Id, Option<Id>>, p: Id, q: Id)
    ensures ContactsLeft(before, p, q, RowsOn(before, q)) == before
    ensures LinksCleared(links, before, p, q, RowsOn(before, q)) == links
    ensures LinksRedirected(links, before, p, q, RowsOn(before, q)) == links
    ensures MovedContacts(before, p, q) - RowsOn(before, q) == {}
  {
  }

  lemma OneDropped(before: map<Id, Contact>, p: Id, q: Id, todo: set<Id>, c: Id)
    requires c in todo && c in before && Duplicate(before, p, q, c)
    ensures ContactsLeft(before, p, q, todo - {c}) == ContactsLeft(before, p, q, todo) - {c}
    ensures MovedContacts(before, p, q) - (todo - {c}) == MovedContacts(before, p, q) - todo
  {
  }

  lemma OneLinkCleared(before: map<Id, Contact>, links: map<Id, Option<Id>>, p: Id, q: Id, todo: set<Id>, c: Id)
    requires c in todo && c in before && Duplicate(before, p, q, c)
    ensures LinksCleared(links, before, p, q, todo - {c}) == ClearLink(LinksCleared(links, before, p, q, todo), c)
  {
  }

  lemma OneLinkRedirected(before: map<Id, Contact>, links: map<Id, Option<Id>>, p: Id, q: Id, todo: set<Id>, c: Id)
    requires p != q && c in todo && c in before && Duplicate(before, p, q, c)
    ensures LinksRedirected(links, before, p, q, todo - {c})
            == RedirectLink(LinksRedirected(links, before, p, q, todo), c, Twin(before, p, q, c))
  {
  }

  lemma OneMoved(before: map<Id, Contact>, links: map<Id, Option<Id>>, p: Id, q: Id, todo: set<Id>, c: Id)
    requires c in todo && c in before && before[c].account == q && !Duplicate(before, p, q, c)
    ensures c in ContactsLeft(before, p, q, todo) && ContactsLeft(before, p, q, todo)[c] == before[c]
    ensures ContactsLeft(before, p, q, todo - {c}) == ContactsLeft(before, p, q, todo)[c := before[c].(account := p)]
    ensures LinksCleared(links, before, p, q, todo - {c}) == LinksCleared(links, before, p, q, todo)
    ensures LinksRedirected(links, before, p, q, todo - {c}) == LinksRedirected(links, before, p, q, todo)
    ensures MovedContacts(before, p, q) - (todo - {c}) == MovedContacts(before, p, q) - todo + {c}
  {
    hide EmailOn;
  }

  /** executeMerge: contacts whose email the primary already has lose their links and go, the others move. */
  method MoveContacts(before: map<Id, Contact>, links: map<Id, Option<Id>>, p: Id, q: Id)
    returns (contacts: map<Id, Contact>, participants: map<Id, Option<Id>>, moved: set<Id>)
    requires p != q
    ensures contacts == ContactsLeft(before, p, q, {})
    ensures participants == LinksCleared(links, before, p, q, {})
    ensures moved == MovedContacts(before, p, q)
  {
    hide ContactsLeft, LinksCleared, MovedContacts, EmailOn;
    contacts, participants, moved := before, links, {};
    var primaryEmails := set c | c in before && before[c].account == p :: before[c].email;
    var todo := RowsOn(before, q);
    NothingDone(before, links, p, q);
    while todo != {}
      invariant todo <= RowsOn(before, q)
      invariant contacts == ContactsLeft(before, p, q, todo)
      invariant participants == LinksCleared(links, before, p, q, todo)
      invariant moved == MovedContacts(before, p, q) - todo
      decreases todo
    {
      var c :| c in todo;
      EmailKnown(before, p, before[c].email);
      if before[c].email in primaryEmails {
        OneDropped(before, p, q, todo, c);
        OneLinkCleared(before, links, p, q, todo, c);
        participants := ClearLink(participants, c);
        contacts := contacts - {c};
      } else {
        OneMoved(before, links, p, q, todo, c);
        contacts := contacts[c := contacts[c].(account := p)];
        moved := moved + {c};
      }
      todo := todo - {c};
    }
  }

  lemma EmailKnown(contacts: map<Id, Contact>, p: Id, email: string)
    ensures EmailOn(contacts, p, email) <==> email in (set c | c in contacts && contacts[c].account == p :: contacts[c].email)
  {
  }

  /** mergeAccounts: the lookup is against the table as it stands, and links follow the email. */
  method MoveContactsAndLinks(before: map<Id, Contact>, links: map<Id, Option<Id>>, p: Id, q: Id)
    returns (contacts: map<Id, Contact>, participants: map<Id, Option<Id>>)
    requires p != q && UniqueContacts(before)
    ensures contacts == ContactsLeft(before, p, q, {})
    ensures participants == LinksRedirected(links, before, p, q, {})
  {
    hide ContactsLeft, LinksRedirected, UniqueContacts, Duplicate;
    contacts, participants := before, links;
    var todo := RowsOn(before, q);
    NothingDone(before, links, p, q);
    while todo != {}
      invariant todo <= RowsOn(before, q)
      invariant contacts == ContactsLeft(before, p, q, todo)
      invariant participants == LinksRedirected(links, before, p, q, todo)
      decreases todo
    {
      var c :| c in todo;
      LookupIsStable(before, p, q, todo, c);
      var email := before[c].email;
      if e :| e in contacts && contacts[e] == Contact(p, email) {
        OneDropped(before, p, q, todo, c);
        OneLinkRedirected(before, links, p, q, todo, c);
        participants := RedirectLink(participants, c, e);
        contacts := contacts - {c};
      } else {
        OneMoved(before, links, p, q, todo, c);
        contacts := contacts[c := contacts[c].(account := p)];
      }
      todo := todo - {c};
    }
  }

  /** Half-way through, the primary has the email exactly when it had it at the start, on the same contact. */
  lemma LookupIsStable(before: map<Id, Contact>, p: Id, q: Id, todo: set<Id>, c: Id)
    requires p != q && UniqueContacts(before)
    requires c in todo && forall d :: d in todo ==> d in before && before[d].account == q
    ensures EmailOn(ContactsLeft(before, p, q, todo), p, before[c].email) <==> Duplicate(before, p, q, c)
    ensures forall e :: e in ContactsLeft(before, p, q, todo) && ContactsLeft(before, p, q, todo)[e] == Contact(p, before[c].email) ==>
              Duplicate(before, p, q, c) && e == Twin(before, p, q, c)
  {
    var now := ContactsLeft(before, p, q, todo);
    forall e | e in now && now[e] == Contact(p, before[c].email)
      ensures Duplicate(before, p, q, c) && e == Twin(before, p, q, c)
    {
      assert before[e].email == before[c].email;
      assert before[e].account != q;
      assert before[e] == Contact(p, before[c].email);
    }
    if Duplicate(before, p, q, c) {
      var t := Twin(before, p, q, c);
      assert t in now && now[t] == Contact(p, before[c].email);
    }
  }

  // ----- aliases, row by row -----

  lemma AliasAdded(aliases: map<nat, Alias>, i: nat, p: Id, d: string)
    requires UniqueAliases(aliases) && (i in aliases ==> aliases[i].account != p) && d !in AliasDomains(aliases, p)
    ensures UniqueAliases(aliases[i := Alias(p, d)])
    ensures AliasDomains(aliases[i := Alias(p, d)], p) == AliasDomains(aliases, p) + {d}
  {
    var after := aliases[i := Alias(p, d)];
    forall j | j in aliases && aliases[j].account == p ensures aliases[j].domain in AliasDomains(after, p) {
      assert j in after && after[j] == aliases[j];
    }
    assert i in after && after[i].domain == d;
  }

  lemma AliasesRemoved(aliases: map<nat, Alias>, gone: set<nat>, p: Id)
    requires UniqueAliases(aliases) && forall i :: i in gone && i in aliases ==> aliases[i].account != p
    ensures UniqueAliases(aliases - gone)
    ensures AliasDomains(aliases - gone, p) == AliasDomains(aliases, p)
  {
    var after := aliases - gone;
    forall j | j in aliases && aliases[j].account == p ensures aliases[j].domain in AliasDomains(after, p) {
      assert j in after && after[j] == aliases[j];
    }
  }

  ghost function RowsOf(aliases: map<nat, Alias>, q: Id): set<nat> {
    set i | i in aliases && aliases[i].account == q
  }

  /** What p has inherited once q's main domain and the rows outside todo are dealt with. */
  ghost function InheritedSoFar(primary: Account, secondary: Account, before: map<nat, Alias>, q: Id, todo: set<nat>): set<string> {
    set d | d in MainDomain(secondary) + AliasDomains(before - todo, q) && primary.domain != Some(d)
  }

  lemma OneMoreRow(primary: Account, secondary: Account, before: map<nat, Alias>, q: Id, todo: set<nat>, i: nat)
    requires i in todo && todo <= RowsOf(before, q)
    ensures InheritedSoFar(primary, secondary, before, q, todo - {i})
            == InheritedSoFar(primary, secondary, before, q, todo) + (if primary.domain == Some(before[i].domain) then {} else {before[i].domain})
  {
    var a, b := before - todo, before - (todo - {i});
    forall j | j in a && a[j].account == q ensures a[j].domain in AliasDomains(b, q) { assert j in b && b[j] == a[j]; }
    forall j | j in b && b[j].account == q ensures b[j].domain in AliasDomains(a, q) + {before[i].domain} {
      if j != i { assert j in a && a[j] == b[j]; }
    }
    assert i in b && b[i] == before[i];
    assert AliasDomains(b, q) == AliasDomains(a, q) + {before[i].domain};
  }

  lemma NoRowYet(primary: Account, secondary: Account, before: map<nat, Alias>, q: Id)
    ensures InheritedSoFar(primary, secondary, before, q, RowsOf(before, q))
            == if Truthy(secondary.domain) && primary.domain != secondary.domain then {secondary.domain.value} else {}
    ensures InheritedSoFar(primary, secondary, before, q, {}) == Inherited(primary, secondary, before, q)
  {
    assert AliasDomains(before - RowsOf(before, q), q) == {};
    assert before - {} == before;
  }

  /** Rows not on q stay; rows of q still to do stay; every other row belongs to p. */
  ghost predicate HalfMoved(before: map<nat, Alias>, now: map<nat, Alias>, p: Id, q: Id, todo: set<nat>) {
    && (forall i :: i in before && (before[i].account != q || i in todo) ==> i in now && now[i] == before[i])
    && (forall i :: i in now && (i !in before || (before[i].account == q && i !in todo)) ==> now[i].account == p)
    && UniqueAliases(now)
  }

  lemma RowDropped(before: map<nat, Alias>, now: map<nat, Alias>, p: Id, q: Id, todo: set<nat>, i: nat)
    requires p != q && HalfMoved(before, now, p, q, todo) && i in todo && todo <= RowsOf(before, q)
    ensures i in now && now[i] == before[i]
    ensures HalfMoved(before, now - {i}, p, q, todo - {i})
    ensures AliasDomains(now - {i}, p) == AliasDomains(now, p)
  {
    AliasesRemoved(now, {i}, p);
  }

  lemma RowTaken(before: map<nat, Alias>, now: map<nat, Alias>, p: Id, q: Id, todo: set<nat>, i: nat, d: string)
    requires p != q && HalfMoved(before, now, p, q, todo) && i in todo && todo <= RowsOf(before, q) && d !in AliasDomains(now, p)
    ensures HalfMoved(before, now[i := Alias(p, d)], p, q, todo - {i})
    ensures AliasDomains(now[i := Alias(p, d)], p) == AliasDomains(now, p) + {d}
  {
  }

  lemma RowCreated(before: map<nat, Alias>, now: map<nat, Alias>, p: Id, q: Id, todo: set<nat>, i: nat, d: string)
    requires HalfMoved(before, now, p, q, todo) && i !in before && i !in now && d !in AliasDomains(now, p)
    ensures HalfMoved(before, now[i := Alias(p, d)], p, q, todo)
    ensures AliasDomains(now[i := Alias(p, d)], p) == AliasDomains(now, p) + {d}
  {
  }

  /** Both merges: the main domain of the secondary becomes an alias of the primary unless it is known there. */
  method AddMainDomain(before: map<nat, Alias>, next: nat, primary: Account, secondary: Account, p: Id, q: Id)
    returns (now: map<nat, Alias>, nextId: nat, added: set<string>)
    requires p != q && UniqueAliases(before) && forall i :: i in before ==> i < next
    ensures HalfMoved(before, now, p, q, RowsOf(before, q)) && next <= nextId && forall i :: i in now ==> i < nextId
    ensures AliasDomains(now, p) == AliasDomains(before, p) + InheritedSoFar(primary, secondary, before, q, RowsOf(before, q))
    ensures added == InheritedSoFar(primary, secondary, before, q, RowsOf(before, q)) - AliasDomains(before, p)
  {
    now, nextId, added := before, next, {};
    NoRowYet(primary, secondary, before, q);
    if Truthy(secondary.domain) && secondary.domain != primary.domain {
      var d := secondary.domain.value;
      if d !in AliasDomains(now, p) {
        AliasAdded(now, nextId, p, d);
        now := now[nextId := Alias(p, d)];
        nextId := nextId + 1;
        added := {d};
      }
    }
  }

  /** executeMerge: alias rows of the secondary are re-pointed, or deleted where the primary has the domain. */
  method MoveAliases(before: map<nat, Alias>, next: nat, primary: Account, secondary: Account, p: Id, q: Id)
    returns (aliases: map<nat, Alias>, nextId: nat, added: set<string>)
    requires p != q && UniqueAliases(before) && forall i :: i in before ==> i < next
    ensures AliasesMerged(before, aliases, p, q, Inherited(primary, secondary, before, q))
    ensures next <= nextId && forall i :: i in aliases ==> i < nextId
    ensures added == Inherited(primary, secondary, before, q) - AliasDomains(before, p)
  {
    hide UniqueAliases, AliasDomains, InheritedSoFar, Inherited, HalfMoved, AliasesMerged;
    NoRowYet(primary, secondary, before, q);
    aliases, nextId, added := AddMainDomain(before, next, primary, secondary, p, q);
    var todo := set i | i in before && before[i].account == q;
    assert todo == RowsOf(before, q);
    while todo != {}
      invariant todo <= RowsOf(before, q)
      invariant HalfMoved(before, aliases, p, q, todo)
      invariant next <= nextId && forall i :: i in aliases ==> i < nextId
      invariant AliasDomains(aliases, p) == AliasDomains(before, p) + InheritedSoFar(primary, secondary, before, q, todo)
      invariant added == InheritedSoFar(primary, secondary, before, q, todo) - AliasDomains(before, p)
      decreases todo
    {
      var i :| i in todo;
      OneMoreRow(primary, secondary, before, q, todo, i);
      RowDropped(before, aliases, p, q, todo, i);
      var d := aliases[i].domain;
      if primary.domain == Some(d) || d in AliasDomains(aliases, p) {
        aliases := aliases - {i};
      } else {
        RowTaken(before, aliases, p, q, todo, i, d);
        aliases := aliases[i := Alias(p, d)];
        added := added + {d};
      }
      todo := todo - {i};
    }
    AllRowsDone(before, aliases, p, q, Inherited(primary, secondary, before, q));
  }

  lemma AllRowsDone(before: map<nat, Alias>, now: map<nat, Alias>, p: Id, q: Id, added: set<string>)
    requires HalfMoved(before, now, p, q, {}) && AliasDomains(now, p) == AliasDomains(before, p) + added
    ensures AliasesMerged(before, now, p, q, added)
  {
  }

  /** mergeAccounts: missing domains are created afresh, then every alias row of the source is deleted. */
  method RecreateAliases(before: map<nat, Alias>, next: nat, target: Account, source: Account, p: Id, q: Id)
    returns (aliases: map<nat, Alias>, nextId: nat)
    requires p != q && UniqueAliases(before) && forall i :: i in before ==> i < next
    ensures AliasesMerged(before, aliases, p, q, Inherited(target, source, before, q))
    ensures next <= nextId && forall i :: i in aliases ==> i < nextId
  {
    hide UniqueAliases, AliasDomains, InheritedSoFar, Inherited, HalfMoved, AliasesMerged;
    ghost var added;
    ghost var rows := RowsOf(before, q);
    NoRowYet(target, source, before, q);
    aliases, nextId, added := AddMainDomain(before, next, target, source, p, q);
    var todo := set i | i in before && before[i].account == q;
    assert todo == rows;
    while todo != {}
      invariant todo <= rows
      invariant HalfMoved(before, aliases, p, q, rows)
      invariant next <= nextId && forall i :: i in aliases ==> i < nextId
      invariant AliasDomains(aliases, p) == AliasDomains(before, p) + InheritedSoFar(target, source, before, q, todo)
      decreases todo
    {
      var i :| i in todo;
      var d := before[i].domain;
      OneMoreRow(target, source, before, q, todo, i);
      todo := todo - {i};
      if d !in AliasDomains(aliases, p) && target.domain != Some(d) {
        RowCreated(before, aliases, p, q, rows, nextId, d);
        aliases := aliases[nextId := Alias(p, d)];
        nextId := nextId + 1;
      }
    }
    var left := set i | i in aliases && aliases[i].account == q;
    SourceRowsDeleted(before, aliases, left, p, q, Inherited(target, source, before, q));
    aliases := aliases - left;
  }

  lemma SourceRowsDeleted(before: map<nat, Alias>, now: map<nat, Alias>, left: set<nat>, p: Id, q: Id, added: set<string>)
    requires p != q && HalfMoved(before, now, p, q, RowsOf(before, q)) && AliasDomains(now, p) == AliasDomains(before, p) + added
    requires left == set i | i in now && now[i].account == q
    ensures AliasesMerged(before, now - left, p, q, added)
  {
  }

  // ----- the transactions -----

  /** executeMerge.  It commits exactly when no check and no declared constraint refuses it. */
  method ExecuteMergeTransaction(s: Tables, org: Id, p: Id, q: Id) returns (r: Outcome<MergeResult>, s': Tables)
    requires UniqueContacts(s.contacts) && UniqueAliases(s.aliases) && FreshIds(s)
    ensures r.Refused? ==> s' == s
    ensures r.Committed? ==>
              && ExecuteMerged(s, s', org, p, q, r.value.run)
              && ExecuteMergeRows(s, s', org, p, q, r.value.run)
              && Reports(s, s', p, q, r.value)
    ensures r.Committed? <==>
              MayMerge(s, org, p, q) && Unblocked(s, p, q) && !CopiesSalesforceId(s.accounts[p], s.accounts[q])
    ensures r == Refused(PrimaryNotFound) <==> p !in s.accounts || s.accounts[p].org != org
    ensures r == Refused(SecondaryNotFound) <==> p in s.accounts && s.accounts[p].org == org && (q !in s.accounts || s.accounts[q].org != org)
    ensures r == Refused(SameAccount) <==> p in s.accounts && s.accounts[p].org == org && p == q
  {
    hide UniqueContacts, UniqueAliases, FreshIds, ExecuteMerged, ExecuteMergeRows, Reports, Unblocked, CopiesSalesforceId;
    if p !in s.accounts || s.accounts[p].org != org { return Refused(PrimaryNotFound), s; }
    if q !in s.accounts || s.accounts[q].org != org { return Refused(SecondaryNotFound), s; }
    if p == q { return Refused(SameAccount), s; }
    r, s' := ExecuteMergeSteps(s, org, p, q);
    if r.Committed? {
      ExecuteMergedRows(s, s', org, p, q, r.value.run);
      MergeReports(s, s', org, p, q, r.value);
    }
  }

  lemma MergeReports(s: Tables, s': Tables, org: Id, p: Id, q: Id, result: MergeResult)
    requires ExecuteMerged(s, s', org, p, q, result.run)
    requires result.contactsMoved == |MovedContacts(s.contacts, p, q)| && result.callsMoved == |OwnedOptional(s.calls, q)|
    requires result.storiesMoved == |Owned(s.stories, q)|
    requires result.aliasesAdded == AliasDomains(s'.aliases, p) - AliasDomains(s.aliases, p)
    ensures Reports(s, s', p, q, result)
  {
    hide Handover, Unblocked, MovedContacts, OwnedOptional, Owned, AliasDomains, WithCrmIds, CopiesSalesforceId, LinksCleared;
  }

  /** What the caller is told: the new run and how many rows it moved. */
  ghost predicate Reports(s: Tables, s': Tables, p: Id, q: Id, result: MergeResult) {
    && result.run in s'.runs
    && result.contactsMoved == |s'.runs[result.run].movedContacts|
    && result.callsMoved == |s'.runs[result.run].movedCalls|
    && result.storiesMoved == |s'.runs[result.run].movedStories|
    && result.aliasesAdded == AliasDomains(s'.aliases, p) - AliasDomains(s.aliases, p)
  }

  method MoveCalls(before: map<Id, Option<Id>>, p: Id, q: Id) returns (calls: map<Id, Option<Id>>, moved: set<Id>)
    ensures calls == ReassignOptional(before, q, p) && moved == OwnedOptional(before, q)
  {
    moved := set k | k in before && before[k] == Some(q);
    OwnedCalls(before, q);
    calls := ReassignOptional(before, q, p);
  }

  method MoveStories(before: map<Id, Id>, p: Id, q: Id) returns (stories: map<Id, Id>, moved: set<Id>)
    ensures stories == Reassign(before, q, p) && moved == Owned(before, q)
  {
    moved := set k | k in before && before[k] == q;
    OwnedStories(before, q);
    stories := Reassign(before, q, p);
  }

  /** The statements of executeMerge inside its transaction. */
  method ExecuteMergeSteps(s: Tables, org: Id, p: Id, q: Id) returns (r: Outcome<MergeResult>, s': Tables)
    requires UniqueContacts(s.contacts) && UniqueAliases(s.aliases) && FreshIds(s) && MayMerge(s, org, p, q)
    ensures r.Refused? ==> s' == s && r.error in {UniqueViolation, StillReferenced}
    ensures r.Committed? ==>
              && ExecuteMerged(s, s', org, p, q, r.value.run)
              && r.value.contactsMoved == |MovedContacts(s.contacts, p, q)|
              && r.value.callsMoved == |OwnedOptional(s.calls, q)|
              && r.value.storiesMoved == |Owned(s.stories, q)|
              && r.value.aliasesAdded == AliasDomains(s'.aliases, p) - AliasDomains(s.aliases, p)
    ensures r.Committed? <==> Unblocked(s, p, q) && !CopiesSalesforceId(s.accounts[p], s.accounts[q])
  {
    hide AliasesMerged, UniqueContacts, EventsClash, Reassign, ReassignOptional, ReassignEvents, ContactsLeft, LinksCleared,
         AliasDomains, Inherited, MovedContacts, OwnedOptional, Owned, UniqueAliases, WithCrmIds, SalesforceIdTaken, CopiesSalesforceId,
         Truthy, SnapshotOf, FreshIds, Handover, ExecuteMerged, RunOf;
    s' := s;
    IdsAreBelow(s);
    var primary, secondary := s.accounts[p], s.accounts[q];
    var contacts, participants, moved := MoveContacts(s.contacts, s.participants, p, q);
    var calls, movedCalls := MoveCalls(s.calls, p, q);
    var stories, movedStories := MoveStories(s.stories, p, q);
    if EventsClash(s.events, p, q) { return Refused(UniqueViolation), s; }
    var events := ReassignEvents(s.events, q, p);
    var grants := ReassignOptional(s.grants, q, p);
    var aliases, run, added := MoveAliases(s.aliases, s.nextId, primary, secondary, p, q);
    AddedIsTheDifference(s.aliases, aliases, p, q, Inherited(primary, secondary, s.aliases, q));
    var updated := WithCrmIds(primary, secondary);
    SalesforceIdAlwaysTaken(s.accounts, p, q);
    if updated.salesforceId != primary.salesforceId && SalesforceIdTaken(s.accounts, p, updated) {
      return Refused(UniqueViolation), s;
    }
    if exists l :: l in s.regenLogs && s.regenLogs[l] == q { return Refused(StillReferenced), s; }
    var accounts := s.accounts[p := updated] - {q};
    var quotes := map k | k in s.quotes && s.quotes[k] != q :: s.quotes[k];
    var row := MergeRun(org, p, q, Completed, SnapshotOf(secondary), moved, movedCalls, movedStories);
    s' := Tables(accounts, contacts, calls, stories, participants, aliases, events, grants, quotes, s.regenLogs, s.runs[run := row], run + 1);
    r := Committed(MergeResult(run, |moved|, |movedCalls|, |movedStories|, added));
    RowIsTheRun(s, org, p, q, row);
    AllStepsDone(s, s', org, p, q, run);
  }

  lemma RowIsTheRun(s: Tables, org: Id, p: Id, q: Id, row: MergeRun)
    requires q in s.accounts
    requires row == MergeRun(org, p, q, Completed, SnapshotOf(s.accounts[q]), MovedContacts(s.contacts, p, q), OwnedOptional(s.calls, q), Owned(s.stories, q))
    ensures row == RunOf(s, org, p, q)
  {
  }

  lemma IdsAreBelow(s: Tables)
    requires FreshIds(s)
    ensures forall i :: i in s.aliases ==> i < s.nextId
  {
  }

  /** The tables the steps leave are the merge's. */
  lemma AllStepsDone(s: Tables, s': Tables, org: Id, p: Id, q: Id, run: nat)
    requires FreshIds(s) && MayMerge(s, org, p, q) && Unblocked(s, p, q) && !CopiesSalesforceId(s.accounts[p], s.accounts[q])
    requires s'.accounts == s.accounts[p := WithCrmIds(s.accounts[p], s.accounts[q])] - {q}
    requires s'.contacts == ContactsLeft(s.contacts, p, q, {}) && s'.participants == LinksCleared(s.participants, s.contacts, p, q, {})
    requires s'.calls == ReassignOptional(s.calls, q, p) && s'.stories == Reassign(s.stories, q, p)
    requires s'.events == ReassignEvents(s.events, q, p) && s'.grants == ReassignOptional(s.grants, q, p)
    requires AliasesMerged(s.aliases, s'.aliases, p, q, Inherited(s.accounts[p], s.accounts[q], s.aliases, q))
    requires s'.quotes == (map k | k in s.quotes && s.quotes[k] != q :: s.quotes[k]) && s'.regenLogs == s.regenLogs
    requires s.nextId <= run && s'.nextId == run + 1 && forall i :: i in s'.aliases ==> i < s'.nextId
    requires s'.runs == s.runs[run := RunOf(s, org, p, q)]
    ensures ExecuteMerged(s, s', org, p, q, run)
  {
    hide Unblocked, AliasesMerged, ReassignOptional, Reassign, ReassignEvents, ContactsLeft, LinksCleared, Inherited, WithCrmIds, RunOf,
         CopiesSalesforceId;
    assert FreshIds(s');
    hide FreshIds;
    assert Handover(s, s', p, q);
  }

  /** mergeAccounts. */
  method MergeAccountsTransaction(s: Tables, source: Id, target: Id, org: Id) returns (r: Outcome<()>, s': Tables)
    requires UniqueContacts(s.contacts) && UniqueAliases(s.aliases) && FreshIds(s)
    ensures r.Refused? ==> s' == s
    ensures r.Committed? ==> QueueMerged(s, s', org, target, source) && QueueMergeRows(s, s', target, source)
    ensures r.Committed? ==> s'.accounts.Keys == s.accounts.Keys - {source} && forall a :: a in s'.accounts ==> s'.accounts[a] == s.accounts[a]
    ensures r.Committed? <==> MayMerge(s, org, target, source) && Unblocked(s, target, source)
    ensures r == Refused(SecondaryNotFound) <==> source !in s.accounts || s.accounts[source].org != org
    ensures r == Refused(PrimaryNotFound) <==>
              source in s.accounts && s.accounts[source].org == org && (target !in s.accounts || s.accounts[target].org != org)
    ensures r == Refused(SameAccount) <==> source in s.accounts && s.accounts[source].org == org && source == target
  {
    hide AliasesMerged, UniqueContacts, EventsClash, Reassign, ReassignOptional, ReassignEvents, ContactsLeft,
         LinksRedirected, AliasDomains, Inherited, UniqueAliases, QueueMergeRows;
    s' := s;
    if source !in s.accounts || s.accounts[source].org != org { return Refused(SecondaryNotFound), s; }
    if target !in s.accounts || s.accounts[target].org != org { return Refused(PrimaryNotFound), s; }
    if source == target { return Refused(SameAccount), s; }
    var calls := ReassignOptional(s.calls, source, target);
    var contacts, participants := MoveContactsAndLinks(s.contacts, s.participants, target, source);
    var aliases, nextId := RecreateAliases(s.aliases, s.nextId, s.accounts[target], s.accounts[source], target, source);
    var stories := Reassign(s.stories, source, target);
    if EventsClash(s.events, target, source) { return Refused(UniqueViolation), s; }
    var events := ReassignEvents(s.events, source, target);
    var grants := ReassignOptional(s.grants, source, target);
    if exists l :: l in s.regenLogs && s.regenLogs[l] == source { return Refused(StillReferenced), s; }
    var accounts := s.accounts - {source};
    var quotes := map k | k in s.quotes && s.quotes[k] != source :: s.quotes[k];
    s' := Tables(accounts, contacts, calls, stories, participants, aliases, events, grants, quotes, s.regenLogs, s.runs, nextId);
    r := Committed(());
    assert Handover(s, s', target, source);
    hide Handover, Unblocked;
    QueueMergedRows(s, s', org, target, source);
  }

  /** undoMerge. */
  method UndoMergeTransaction(s: Tables, org: Id, run: nat) returns (r: Outcome<()>, s': Tables)
    ensures r.Refused? ==> s' == s
    ensures r.Committed? ==> UndoneTo(s, s', org, run) && UndoRows(s, s', run) && AccountRestored(s, s', s.runs[run])
    ensures r.Committed? <==> MayUndo(s, org, run) && UndoFits(s, s.runs[run])
    ensures r == Refused(RunNotFound) <==> run !in s.runs || s.runs[run].org != org
    ensures r == Refused(AlreadyUndone) <==> run in s.runs && s.runs[run].org == org && s.runs[run].status == Undone
  {
    hide UniqueContacts, CallsBack, StoriesBack, ContactsBack, UndoRows, AccountRestored;
    s' := s;
    if run !in s.runs || s.runs[run].org != org { return Refused(RunNotFound), s; }
    var row := s.runs[run];
    if row.status == Undone { return Refused(AlreadyUndone), s; }
    var accounts := s.accounts;
    if !(row.secondary in accounts && accounts[row.secondary].org == org) {
      if row.secondary in accounts
         || (row.snapshot.domain.Some? && exists a :: a in accounts && accounts[a].org == org && accounts[a].domain == row.snapshot.domain)
      {
        return Refused(UniqueViolation), s;
      }
      accounts := accounts[row.secondary := Restored(org, row.snapshot)];
    }
    var contacts := ContactsBack(s.contacts, row);
    if !UniqueContacts(contacts) { return Refused(UniqueViolation), s; }
    s' := s.(accounts := accounts, contacts := contacts, calls := CallsBack(s.calls, row), stories := StoriesBack(s.stories, row),
             runs := s.runs[run := row.(status := Undone)]);
    r := Committed(());
    assert UndoneTo(s, s', org, run);
    UndoneRows(s, s', org, run);
  }

  /** The database behind both services; each method is one transaction on it. */
  class Store {
    var db: Tables

    ghost predicate Valid()
      reads this
    {
      Consistent(db)
    }

    method ExecuteMerge(org: Id, p: Id, q: Id) returns (r: Outcome<MergeResult>)
      requires Valid()
      modifies this
      ensures Valid()
      ensures if r.Refused? then db == old(db) else ExecuteMerged(old(db), db, org, p, q, r.value.run)
      ensures r.Committed? ==> ExecuteMergeRows(old(db), db, org, p, q, r.value.run)
    {
      hide Consistent, ExecuteMerged, ExecuteMergeRows;
      ghost var s := db;
      var s';
      Facts(db);
      r, s' := ExecuteMergeTransaction(db, org, p, q);
      if r.Committed? { ExecuteMergeKeepsConsistent(s, s', org, p, q, r.value.run); }
      db := s';
    }

    method MergeAccounts(source: Id, target: Id, org: Id) returns (r: Outcome<()>)
      requires Valid()
      modifies this
      ensures Valid()
      ensures if r.Refused? then db == old(db) else QueueMerged(old(db), db, org, target, source)
      ensures r.Committed? ==> QueueMergeRows(old(db), db, target, source)
      ensures r.Committed? ==>
                db.accounts.Keys == old(db).accounts.Keys - {source} && forall a :: a in db.accounts ==> db.accounts[a] == old(db).accounts[a]
    {
      hide Consistent, QueueMerged, QueueMergeRows;
      ghost var s := db;
      var s';
      Facts(db);
      r, s' := MergeAccountsTransaction(db, source, target, org);
      if r.Committed? { QueueMergeKeepsConsistent(s, s', org, target, source); }
      db := s';
    }

    /** The undo commits exactly for a completed run of the organization whose freed domain no other account has taken. */
    method UndoMerge(org: Id, run: nat) returns (r: Outcome<()>)
      requires Valid()
      modifies this
      ensures Valid()
      ensures if r.Refused? then db == old(db) else UndoneTo(old(db), db, org, run)
      ensures r.Committed? ==> UndoRows(old(db), db, run) && AccountRestored(old(db), db, old(db).runs[run])
      ensures r.Committed? <==> old(MayUndo(db, org, run) && DomainFree(db.accounts, org, db.runs[run].snapshot.domain))
    {
      hide Consistent, UndoneTo, UndoRows, AccountRestored;
      ghost var s := db;
      var s';
      r, s' := UndoMergeTransaction(db, org, run);
      if MayUndo(s, org, run) { UndoFitsIffDomainFree(s, org, run); }
      if r.Committed? { UndoKeepsConsistent(s, s', org, run); }
      db := s';
    }

    /** The account row of createAccountFromCall, under the domain chosen there; the id is generated. */
    method CreateAccount(org: Id, name: string, domain: Option<string>, id: Id) returns (r: Outcome<()>)
      requires Valid() && UnusedId(db, id)
      modifies this
      ensures Valid()
      ensures if r.Refused? then db == old(db) else Created(old(db), db, id, NewAccount(org, name, domain))
      ensures r.Committed? ==>
                && db == old(db).(accounts := db.accounts) && db.accounts.Keys == old(db).accounts.Keys + {id}
                && (forall a :: a in old(db).accounts ==> db.accounts[a] == old(db).accounts[a])
                && db.accounts[id].org == org && db.accounts[id].name == name && db.accounts[id].domain == domain
                && db.accounts[id].salesforceId == None && db.accounts[id].hubspotId == None && db.accounts[id].mergeAccountId == None
      ensures r.Committed? <==> DomainFree(old(db).accounts, org, domain)
    {
      hide Consistent, UniqueAccounts;
      ghost var s := db;
      Facts(s);
      if domain.Some? && exists a :: a in db.accounts && db.accounts[a].org == org && db.accounts[a].domain == domain {
        return Refused(UniqueViolation);
      }
      NewAccountIsUnique(s.accounts, org, name, domain, id);
      db := db.(accounts := db.accounts[id := NewAccount(org, name, domain)]);
      CreateKeepsConsistent(s, db, id, NewAccount(org, name, domain));
      r := Committed(());
    }
  }

  function NewAccount(org: Id, name: string, domain: Option<string>): Account {
    Account(org, name, domain, None, None, None, None, None, None)
  }

  lemma NewAccountIsUnique(accounts: map<Id, Account>, org: Id, name: string, domain: Option<string>, id: Id)
    requires UniqueAccounts(accounts) && id !in accounts
    ensures UniqueAccounts(accounts[id := NewAccount(org, name, domain)]) <==> DomainFree(accounts, org, domain)
  {
    var after := accounts[id := NewAccount(org, name, domain)];
    if !DomainFree(accounts, org, domain) {
      var a :| a in accounts && accounts[a].org == org && accounts[a].domain == domain;
      assert a in after && a != id && after[a].org == after[id].org && after[a].domain == after[id].domain;
    }
  }

  /** Another account of the organization already holds the Salesforce id. */
  predicate SalesforceIdTaken(accounts: map<Id, Account>, p: Id, updated: Account) {
    exists a :: a in accounts && a != p && accounts[a].org == updated.org && accounts[a].salesforceId == updated.salesforceId
  }

  /** When the merge copies the Salesforce id, the secondary itself still holds it, so the update is refused. */
  lemma SalesforceIdAlwaysTaken(accounts: map<Id, Account>, p: Id, q: Id)
    requires p in accounts && q in accounts && p != q && accounts[p].org == accounts[q].org
    ensures var updated := WithCrmIds(accounts[p], accounts[q]);
            updated.salesforceId != accounts[p].salesforceId && SalesforceIdTaken(accounts, p, updated)
            <==> CopiesSalesforceId(accounts[p], accounts[q])
  {
  }

  /** The update of the primary keeps the accounts unique exactly when it copies no Salesforce id. */
  lemma CopyBreaksTheKey(accounts: map<Id, Account>, p: Id, q: Id)
    requires UniqueAccounts(accounts) && p in accounts && q in accounts && p != q && accounts[p].org == accounts[q].org
    ensures UniqueAccounts(accounts[p := WithCrmIds(accounts[p], accounts[q])]) <==> !CopiesSalesforceId(accounts[p], accounts[q])
  {
    var after := accounts[p := WithCrmIds(accounts[p], accounts[q])];
    if CopiesSalesforceId(accounts[p], accounts[q]) {
      assert after[p].salesforceId == after[q].salesforceId;
    }
  }

  lemma Facts(s: Tables)
    requires Consistent(s)
    ensures UniqueContacts(s.contacts) && UniqueAliases(s.aliases) && FreshIds(s) && UniqueAccounts(s.accounts)
  {
  }

  lemma OwnedCalls(calls: map<Id, Option<Id>>, q: Id)
    ensures OwnedOptional(calls, q) == set k | k in calls && calls[k] == Some(q)
  {
  }

  lemma OwnedStories(stories: map<Id, Id>, q: Id)
    ensures Owned(stories, q) == set k | k in stories && stories[k] == q
  {
  }

  lemma AddedIsTheDifference(before: map<nat, Alias>, after: map<nat, Alias>, p: Id, q: Id, added: set<string>)
    requires AliasesMerged(before, after, p, q, added)
    ensures AliasDomains(after, p) - AliasDomains(before, p) == added - AliasDomains(before, p)
  {
  }
}
