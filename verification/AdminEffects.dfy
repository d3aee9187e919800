/**
  What blocking and unblocking need and what exactly they change, domain by domain and contact by contact, and that
  unblocking undoes blocking.
 */
module AdminEffects {
  import opened Options
  import opened CopyHandles
  import opened AdminRegistry
  import opened AdminBlock
  import opened AdminUnblock
  import opened AdminBlocking

  // ---- blocking ----

  ghost predicate OwnsListed(r: Registry, ids: set<DomainId>, c: ContactId) {
    exists d :: d in ids && d in r.domains && r.domains[d].owner == c
  }

  lemma OwnersOwnListed(r: Registry, ids: set<DomainId>, c: ContactId)
    requires ids <= r.domains.Keys
    ensures c in Owners(r, ids) <==> OwnsListed(r, ids, c)
  {
  }

  /** Listed domains are blocked with the given states and remember their own; but for their owners nothing else of
      them, and nothing of any other domain, changes. */
  ghost predicate ListedAreBlocked(r: Registry, t: Registry, ids: set<DomainId>, statuses: set<string>) {
    && t.domains.Keys == r.domains.Keys
    && forall d :: d in r.domains ==>
         t.domains[d] ==
           if d in ids then
             Domain(r.domains[d].fqdn, t.domains[d].owner, r.domains[d].admins, r.domains[d].expiration,
               Flags.Blocked(statuses, r.domains[d].flags.states))
           else r.domains[d]
  }

  ghost predicate SameOwners(r: Registry, t: Registry) {
    forall d :: d in r.domains && d in t.domains ==> t.domains[d].owner == r.domains[d].owner
  }

  /** Owners of listed domains are blocked with those states that apply to contacts, if there are any. */
  ghost predicate OwnersAreBlocked(r: Registry, t: Registry, ids: set<DomainId>, contactStatuses: set<string>) {
    && t.contacts.Keys == r.contacts.Keys
    && forall c :: c in r.contacts ==>
         t.contacts[c] ==
           if contactStatuses != {} && OwnsListed(r, ids, c) then
             Contact(r.contacts[c].handle, r.contacts[c].data, r.contacts[c].mojeId,
               Flags.Blocked(contactStatuses, r.contacts[c].flags.states))
           else r.contacts[c]
  }

  /** Listed domains go to copies of their owners, which are blocked; the owners themselves stay as they are. */
  ghost predicate CopiesTakeOver(r: Registry, t: Registry, ids: set<DomainId>, contactStatuses: set<string>,
      copies: map<ContactId, ContactId>)
  {
    && (forall c :: c in r.contacts ==> c in t.contacts && t.contacts[c] == r.contacts[c])
    && (forall d :: d in ids && d in r.domains && d in t.domains ==>
          && r.domains[d].owner in copies
          && t.domains[d].owner ==
               (if contactStatuses != {} then copies[r.domains[d].owner] else r.domains[d].owner))
    && (forall o :: o in copies ==>
          && OwnsListed(r, ids, o) && o in r.contacts && copies[o] !in r.contacts && copies[o] in t.contacts
          && t.contacts[copies[o]] ==
               Contact(t.contacts[copies[o]].handle, r.contacts[o].data, false, Flags.Blocked(contactStatuses, {}))
          && r.contacts[o].handle + SUFFIX < t.contacts[copies[o]].handle)
  }

  ghost predicate BlocksAsAsked(r: Registry, t: Registry, ids: set<DomainId>, statuses: set<string>,
      contactStatuses: set<string>, mode: Mode, copies: map<ContactId, ContactId>)
  {
    && ListedAreBlocked(r, t, ids, statuses)
    && match mode
       case KeepOwner => SameOwners(r, t) && t.contacts == r.contacts
       case BlockOwner => SameOwners(r, t) && OwnersAreBlocked(r, t, ids, contactStatuses)
       case BlockOwnerCopy => CopiesTakeOver(r, t, ids, contactStatuses, copies)
  }

  /** What all modes need: domains that exist and are free, and states that domains can have. */
  ghost predicate CanBlock(r: Registry, ids: set<DomainId>, statuses: set<string>, known: set<string>) {
    && (forall d :: d in ids ==> d in r.domains && r.domains[d].flags.Free?)
    && (ids != {} ==> forall s :: s in statuses ==> s in known)
  }

  /** What blocking the owners needs in addition: they own nothing else, are no mojeID contacts, and are free if they
      are to be blocked. */
  ghost predicate CanBlockOwners(r: Registry, ids: set<DomainId>, contactStatuses: set<string>) {
    && (forall d :: d in r.domains && OwnsListed(r, ids, r.domains[d].owner) ==> d in ids)
    && (forall c :: c in r.contacts && OwnsListed(r, ids, c) ==>
          !r.contacts[c].mojeId && (contactStatuses != {} ==> r.contacts[c].flags.Free?))
  }

  /** When blocking succeeds. With copies it needs free handles for them: enough in any case, and for owners whose
      handles are unrelated no less. */
  ghost predicate SucceedsIf(r: Registry, ids: set<DomainId>, statuses: set<string>, known: set<string>,
      contactStatuses: set<string>, mode: Mode, ok: bool)
  {
    match mode
    case KeepOwner => ok <==> CanBlock(r, ids, statuses, known)
    case BlockOwner => ok <==> CanBlock(r, ids, statuses, known) && CanBlockOwners(r, ids, contactStatuses)
    case BlockOwnerCopy =>
      if !(CanBlock(r, ids, statuses, known) && ids != {} && ids <= r.domains.Keys) then !ok
      else (Room(r, Owners(r, ids)) ==> ok) && (OwnersApart(r, Owners(r, ids)) && ok ==> Room(r, Owners(r, ids)))
  }

  /** Each error names what was found; with owners, what is blocked already may be domains or owners. */
  ghost predicate BlockErrorStands(r: Registry, ids: set<DomainId>, statuses: set<string>, known: set<string>,
      mode: Mode, e: Error)
  {
    match e
    case DomainIdNotFound(missing) => missing == ids - r.domains.Keys != {}
    case UnknownStatus(unknown) => unknown == statuses - known != {}
    case AlreadyBlocked(found) =>
      && found != {}
      && (mode != BlockOwner ==> forall d :: d in found <==> d in ids && d in r.domains && r.domains[d].flags.Blocked?)
      && (mode == BlockOwner ==> forall x :: x in found ==>
            || (x in ids && x in r.domains && r.domains[x].flags.Blocked?)
            || (x in r.contacts && OwnsListed(r, ids, x) && r.contacts[x].flags.Blocked?))
    case OwnerHasOtherDomain(owners) =>
      && mode == BlockOwner && owners != {}
      && forall c :: c in owners <==> OwnsListed(r, ids, c) && OwnsUnlisted(r, ids, c)
    case ContactBlockProhibited(owners) =>
      && mode == BlockOwner && owners != {}
      && forall c :: c in owners <==> c in r.contacts && OwnsListed(r, ids, c) && r.contacts[c].mojeId
    case InternalServerError =>
      mode == BlockOwnerCopy && ids <= r.domains.Keys && (ids == {} || !Room(r, Owners(r, ids)))
  }

  ghost predicate OwnsUnlisted(r: Registry, ids: set<DomainId>, c: ContactId) {
    exists d :: d in r.domains && d !in ids && r.domains[d].owner == c
  }

  lemma OthersAreUnlisted(r: Registry, ids: set<DomainId>)
    requires ids <= r.domains.Keys
    ensures OtherDomains(r, ids) != {} ==> Owners(r, OtherDomains(r, ids)) != {}
    ensures forall c :: c in Owners(r, OtherDomains(r, ids)) <==> OwnsListed(r, ids, c) && OwnsUnlisted(r, ids, c)
  {
    var others := OtherDomains(r, ids);
    if d :| d in others {
      assert r.domains[d].owner in Owners(r, others);
    }
    forall c ensures c in Owners(r, others) <==> OwnsListed(r, ids, c) && OwnsUnlisted(r, ids, c) {
      OwnersOwnListed(r, ids, c);
      if OwnsListed(r, ids, c) && OwnsUnlisted(r, ids, c) {
        var d :| d in r.domains && d !in ids && r.domains[d].owner == c;
        assert d in others;
      }
    }
  }

  lemma MojeIdOwnersAre(r: Registry, ids: set<DomainId>, c: ContactId)
    requires ids <= r.domains.Keys
    ensures c in MojeIdOwners(r, ids) <==> c in r.contacts && OwnsListed(r, ids, c) && r.contacts[c].mojeId
  {
    OwnersOwnListed(r, ids, c);
  }

  lemma KeepOwnerBlocks(r: Registry, ids: set<DomainId>, statuses: set<string>, contactStatuses: set<string>,
      copies: map<ContactId, ContactId>)
    requires ids <= r.domains.Keys && AllFree(r, ids)
    ensures BlocksAsAsked(r, r.(domains := DomainsBlocked(r, ids, statuses, map[])), ids, statuses, contactStatuses,
              KeepOwner, copies)
  {
  }

  lemma OwnerIsBlockedToo(r: Registry, ids: set<DomainId>, statuses: set<string>, contactStatuses: set<string>,
      copies: map<ContactId, ContactId>)
    requires ids <= r.domains.Keys && AllFree(r, ids)
    ensures BlocksAsAsked(r, DomainAndOwner(r, ids, statuses, contactStatuses), ids, statuses, contactStatuses,
              BlockOwner, copies)
  {
    forall c ensures c in Owners(r, ids) <==> OwnsListed(r, ids, c) {
      OwnersOwnListed(r, ids, c);
    }
  }

  lemma CopiesBlock(r: Registry, t: Registry, ids: set<DomainId>, statuses: set<string>, contactStatuses: set<string>,
      copies: map<ContactId, ContactId>)
    requires BlockedWithCopies(r, t, ids, statuses, contactStatuses, copies)
    ensures BlocksAsAsked(r, t, ids, statuses, contactStatuses, BlockOwnerCopy, copies)
  {
    ListedTakenOver(r, t, ids, statuses, contactStatuses, copies);
    forall o | o in copies
      ensures OwnsListed(r, ids, o) && IsBlockedCopy(r, t, o, copies[o], contactStatuses)
    {
      OwnersOwnListed(r, ids, o);
    }
  }

  lemma ListedTakenOver(r: Registry, t: Registry, ids: set<DomainId>, statuses: set<string>,
      contactStatuses: set<string>, copies: map<ContactId, ContactId>)
    requires BlockedWithCopies(r, t, ids, statuses, contactStatuses, copies)
    ensures ListedAreBlocked(r, t, ids, statuses)
    ensures forall d :: d in ids ==>
      && r.domains[d].owner in copies
      && t.domains[d].owner == (if contactStatuses != {} then copies[r.domains[d].owner] else r.domains[d].owner)
  {
    forall d | d in ids ensures r.domains[d].owner in copies {
      assert r.domains[d].owner in Owners(r, ids);
    }
  }

  lemma FreeIsCanBlock(r: Registry, ids: set<DomainId>, statuses: set<string>, known: set<string>)
    requires ids <= r.domains.Keys
    ensures AllFree(r, ids) && (ids != {} ==> statuses <= known) <==> CanBlock(r, ids, statuses, known)
  {
  }

  lemma OwnersConditions(r: Registry, ids: set<DomainId>, statuses: set<string>, known: set<string>,
      contactStatuses: set<string>)
    requires Valid(r) && ids <= r.domains.Keys
    ensures (&& OtherDomains(r, ids) == {} && MojeIdOwners(r, ids) == {}
             && CanBlockWithOwners(r, ids, statuses, known, contactStatuses)) <==>
      CanBlock(r, ids, statuses, known) && CanBlockOwners(r, ids, contactStatuses)
  {
    forall c ensures c in Owners(r, ids) <==> OwnsListed(r, ids, c) {
      OwnersOwnListed(r, ids, c);
    }
    NoOtherDomains(r, ids);
    NoMojeIdOwners(r, ids);
  }

  lemma NoOtherDomains(r: Registry, ids: set<DomainId>)
    requires ids <= r.domains.Keys
    ensures OtherDomains(r, ids) == {} <==>
      forall d :: d in r.domains && OwnsListed(r, ids, r.domains[d].owner) ==> d in ids
  {
    forall d | d in r.domains
      ensures d in OtherDomains(r, ids) <==> d !in ids && OwnsListed(r, ids, r.domains[d].owner)
    {
      OwnersOwnListed(r, ids, r.domains[d].owner);
    }
  }

  lemma NoMojeIdOwners(r: Registry, ids: set<DomainId>)
    requires ids <= r.domains.Keys
    ensures MojeIdOwners(r, ids) == {} <==>
      forall c :: c in r.contacts && OwnsListed(r, ids, c) ==> !r.contacts[c].mojeId
  {
    forall c | c in r.contacts
      ensures c in MojeIdOwners(r, ids) <==> OwnsListed(r, ids, c) && r.contacts[c].mojeId
    {
      OwnersOwnListed(r, ids, c);
    }
  }

  // ---- unblocking ----

  /** A listed domain afterwards: free, with its own states back if asked, with the new owner if there is one, not
      expired before today, and without its administrative contacts if asked. */
  predicate ListedIsFree(d: Domain, after: Domain, plan: Plan) {
    && after.fqdn == d.fqdn
    && after.flags == Free(if plan.restore && d.flags.Blocked? then d.flags.saved else {})
    && after.owner == (if plan.newOwner.Some? then plan.newOwner.value else d.owner)
    && after.expiration == (if plan.today <= d.expiration then d.expiration else plan.today)
    && after.admins == (if plan.removeAdmins then {} else d.admins)
  }

  /** A contact afterwards: free with its own states again, or as it was. */
  predicate FreeAgain(c: Contact, after: Contact) {
    c.flags.Blocked? && after == Contact(c.handle, c.data, c.mojeId, Free(c.flags.saved))
  }

  /** The batch, domain by domain and contact by contact. */
  ghost predicate UnblocksAsAsked(r: Registry, t: Registry, ids: set<DomainId>, plan: Plan,
      copies: map<ContactId, ContactId>)
  {
    && DomainsAfter(r, t, ids, plan, copies)
    && (forall c :: c in r.contacts ==> c in t.contacts && ContactAfter(r, t, ids, plan, c))
    && CopiesAfter(r, t, ids, plan, copies)
  }

  ghost predicate DomainsAfter(r: Registry, t: Registry, ids: set<DomainId>, plan: Plan,
      copies: map<ContactId, ContactId>)
  {
    && t.domains.Keys == r.domains.Keys
    && (forall d :: d in ids ==>
          d in r.domains && r.domains[d].flags.Blocked? && ListedIsFree(r.domains[d], t.domains[d], plan))
    && (forall d :: d in r.domains && d !in ids ==>
          t.domains[d] == r.domains[d].(owner :=
            if r.domains[d].flags.Blocked? && r.domains[d].owner in copies then copies[r.domains[d].owner]
            else r.domains[d].owner))
  }

  ghost predicate ContactAfter(r: Registry, t: Registry, ids: set<DomainId>, plan: Plan, c: ContactId)
    requires c in r.contacts && c in t.contacts
  {
    if OwnsListed(r, ids, c) && r.contacts[c].flags.Blocked?
       && (plan.newOwner.None? || !KeepsBlockedDomain(r, ids, c))
    then FreeAgain(r.contacts[c], t.contacts[c]) else t.contacts[c] == r.contacts[c]
  }

  /** Who is copied: blocked owners who are left with blocked domains, unless a new owner takes the listed ones. The
      copy is blocked as its owner was. */
  ghost predicate CopiesAfter(r: Registry, t: Registry, ids: set<DomainId>, plan: Plan,
      copies: map<ContactId, ContactId>)
  {
    && (forall o :: o in copies <==>
          && o in r.contacts && OwnsListed(r, ids, o) && r.contacts[o].flags.Blocked?
          && plan.newOwner.None? && KeepsBlockedDomain(r, ids, o))
    && (forall o :: o in copies ==>
          && copies[o] !in r.contacts && copies[o] in t.contacts
          && t.contacts[copies[o]] ==
               Contact(t.contacts[copies[o]].handle, r.contacts[o].data, false,
                 Flags.Blocked(r.contacts[o].flags.states, {}))
          && r.contacts[o].handle + SUFFIX < t.contacts[copies[o]].handle)
    && (forall c :: c in t.contacts ==> c in r.contacts || exists o :: o in copies && copies[o] == c)
  }

  lemma BatchUnblocks(r: Registry, t: Registry, ids: set<DomainId>, plan: Plan, copies: map<ContactId, ContactId>)
    requires Valid(r) && BatchDone(r, t, ids, plan, copies)
    ensures UnblocksAsAsked(r, t, ids, plan, copies)
  {
    var mid := r.(domains := DomainsUnblocked(r, ids, plan));
    BatchDomains(r, t, ids, plan, copies);
    forall c | c in r.contacts ensures c in t.contacts && ContactAfter(r, t, ids, plan, c) {
      BatchContact(r, t, ids, plan, copies, c);
    }
    BatchCopies(r, t, ids, plan, copies);
  }

  lemma BatchDomains(r: Registry, t: Registry, ids: set<DomainId>, plan: Plan, copies: map<ContactId, ContactId>)
    requires BatchDone(r, t, ids, plan, copies)
    ensures DomainsAfter(r, t, ids, plan, copies)
  {
    var mid := r.(domains := DomainsUnblocked(r, ids, plan));
    forall d | d in r.domains ensures t.domains[d] == OwnerAfter(mid.domains[d], copies) {
    }
  }

  lemma BatchContact(r: Registry, t: Registry, ids: set<DomainId>, plan: Plan, copies: map<ContactId, ContactId>,
      c: ContactId)
    requires BatchDone(r, t, ids, plan, copies) && c in r.contacts
    ensures c in t.contacts && ContactAfter(r, t, ids, plan, c)
  {
    var mid := r.(domains := DomainsUnblocked(r, ids, plan));
    OwnersOwnListed(r, ids, c);
    LeftBlocked(r, ids, plan, c);
    assert IsSettled(mid, t, Owners(r, ids), plan.newOwner.None?, c);
  }

  lemma BatchCopies(r: Registry, t: Registry, ids: set<DomainId>, plan: Plan, copies: map<ContactId, ContactId>)
    requires BatchDone(r, t, ids, plan, copies)
    ensures CopiesAfter(r, t, ids, plan, copies)
  {
    var mid := r.(domains := DomainsUnblocked(r, ids, plan));
    forall o
      ensures o in copies <==>
        && o in r.contacts && OwnsListed(r, ids, o) && r.contacts[o].flags.Blocked?
        && plan.newOwner.None? && KeepsBlockedDomain(r, ids, o)
    {
      OwnersOwnListed(r, ids, o);
      LeftBlocked(r, ids, plan, o);
    }
    forall o | o in copies ensures IsStandIn(mid, t, o, copies[o]) {
    }
    forall c | c in t.contacts && c !in r.contacts ensures exists o :: o in copies && copies[o] == c {
      assert Made(copies, c);
    }
  }

  // ---- one undoes the other ----

  /**
    Domains blocked alone, or together with their owners, are as before once they are unblocked with their states
    restored and nothing else asked for, and so is every contact.
   */
  lemma UnblockUndoesBlock(r: Registry, t: Registry, u: Registry, ids: set<DomainId>, statuses: set<string>,
      contactStatuses: set<string>, mode: Mode, plan: Plan, copies: map<ContactId, ContactId>,
      more: map<ContactId, ContactId>)
    requires mode != BlockOwnerCopy && BlocksAsAsked(r, t, ids, statuses, contactStatuses, mode, copies)
    requires CanBlock(r, ids, statuses, statuses) && (mode == BlockOwner ==> CanBlockOwners(r, ids, contactStatuses))
    requires forall c :: c in r.contacts && OwnsListed(r, ids, c) ==> r.contacts[c].flags.Free?
    requires UnblocksAsAsked(t, u, ids, plan, more)
    requires plan.restore && !plan.removeAdmins && plan.newOwner.None?
    requires forall d :: d in ids ==> plan.today <= r.domains[d].expiration
    ensures u.domains == r.domains && u.contacts == r.contacts
  {
    forall c ensures OwnsListed(t, ids, c) <==> OwnsListed(r, ids, c) {
      SameListed(r, t, ids, c);
    }
    forall c | OwnsListed(r, ids, c) && c in t.contacts && t.contacts[c].flags.Blocked?
      ensures !KeepsBlockedDomain(t, ids, c)
    {
    }
    forall c | c in r.contacts ensures c in u.contacts && u.contacts[c] == r.contacts[c] {
      assert ContactAfter(t, u, ids, plan, c);
    }
    forall o ensures o !in more {
    }
  }

  lemma SameListed(r: Registry, t: Registry, ids: set<DomainId>, c: ContactId)
    requires t.domains.Keys == r.domains.Keys && SameOwners(r, t)
    ensures OwnsListed(t, ids, c) <==> OwnsListed(r, ids, c)
  {
    if OwnsListed(r, ids, c) {
      var d :| d in ids && d in r.domains && r.domains[d].owner == c;
      assert t.domains[d].owner == c;
    }
  }
}
