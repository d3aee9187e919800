/**
  Blocking a list of domains, with their owners, or with copies of their owners. All of it happens in one transaction:
  what goes wrong with single domains is collected, and any of it means that nothing is committed.
 */
module AdminBlock {
  import opened Options
  import opened CopyHandles
  import opened AdminRegistry

  datatype Mode = KeepOwner | BlockOwner | BlockOwnerCopy

  datatype Error =
    | DomainIdNotFound(ids: set<DomainId>)
    | UnknownStatus(statuses: set<string>)
    | AlreadyBlocked(ids: set<nat>)
    | OwnerHasOtherDomain(owners: set<ContactId>)
    | ContactBlockProhibited(owners: set<ContactId>)
    | InternalServerError

  datatype OwnerChange = OwnerChange(domain: DomainId, oldOwner: ContactId, newOwner: ContactId)

  datatype Result = Ok(changes: seq<OwnerChange>) | Err(error: Error)

  function Block(f: Flags, statuses: set<string>): Flags {
    Flags.Blocked(statuses, f.states)
  }

  /** A domain after its own block request, with a new owner if it gets one. */
  function BlockedDomain(r: Registry, d: DomainId, statuses: set<string>, newOwner: map<DomainId, ContactId>): Domain
    requires d in r.domains
  {
    r.domains[d].(flags := Block(r.domains[d].flags, statuses),
      owner := if d in newOwner then newOwner[d] else r.domains[d].owner)
  }

  /** The domains of a registry when those listed have been blocked, one by one, as far as they could. */
  function DomainsBlocked(r: Registry, ids: set<DomainId>, statuses: set<string>, newOwner: map<DomainId, ContactId>):
      map<DomainId, Domain>
  {
    map d | d in r.domains ::
      if d in ids && r.domains[d].flags.Free? then BlockedDomain(r, d, statuses, newOwner) else r.domains[d]
  }

  /** The loop over the listed domains when owners are kept or replaced by copies. */
  method BlockEach(r: Registry, ids: set<DomainId>, statuses: set<string>, known: set<string>,
      newOwner: map<DomainId, ContactId>) returns (t: Registry, already: set<DomainId>, unknown: set<string>)
    requires ids <= r.domains.Keys
    ensures already == set d | d in ids && r.domains[d].flags.Blocked?
    ensures unknown == if ids - already == {} then {} else statuses - known
    ensures t == r.(domains := if statuses <= known then DomainsBlocked(r, ids, statuses, newOwner) else r.domains)
  {
    t, already, unknown := r, {}, {};
    var left := ids;
    ghost var done: set<DomainId> := {};
    while left != {}
      invariant left !! done && left + done == ids
      invariant already == set d | d in done && r.domains[d].flags.Blocked?
      invariant unknown == if done - already == {} then {} else statuses - known
      invariant t == r.(domains := if statuses <= known then DomainsBlocked(r, done, statuses, newOwner) else r.domains)
      decreases left
    {
      var d :| d in left;
      assert t.domains[d] == r.domains[d];
      if t.domains[d].flags.Blocked? {
        already := already + {d};
      } else if !(statuses <= known) {
        unknown := unknown + (statuses - known);
      } else {
        t := t.(domains := t.domains[d := BlockedDomain(t, d, statuses, newOwner)]);
      }
      left, done := left - {d}, done + {d};
    }
    assert done == ids;
  }

  function ContactsBlocked(r: Registry, cs: set<ContactId>, statuses: set<string>): map<ContactId, Contact> {
    map c | c in r.contacts ::
      if c in cs then r.contacts[c].(flags := Block(r.contacts[c].flags, statuses)) else r.contacts[c]
  }

  /** Listed domains whose block request finds nothing in the way. */
  ghost predicate AllFree(r: Registry, ids: set<DomainId>)
    requires ids <= r.domains.Keys
  {
    forall d :: d in ids ==> r.domains[d].flags.Free?
  }

  /** Who is blocked along with the domains: no one if none of the statuses applies to contacts. */
  function BlockedOwners(r: Registry, ids: set<DomainId>, contactStatuses: set<string>): set<ContactId>
    requires ids <= r.domains.Keys
  {
    if contactStatuses == {} then {} else Owners(r, ids)
  }

  function DomainAndOwner(r: Registry, ids: set<DomainId>, statuses: set<string>,
      contactStatuses: set<string>): Registry
    requires ids <= r.domains.Keys
  {
    r.(domains := DomainsBlocked(r, ids, statuses, map[]),
       contacts := ContactsBlocked(r, BlockedOwners(r, ids, contactStatuses), contactStatuses))
  }

  /** Nothing in the way of blocking the domains together with their owners. */
  ghost predicate CanBlockWithOwners(r: Registry, ids: set<DomainId>, statuses: set<string>, known: set<string>,
      contactStatuses: set<string>)
    requires Valid(r) && ids <= r.domains.Keys
  {
    && AllFree(r, ids) && (ids != {} ==> statuses <= known)
    && forall c :: c in BlockedOwners(r, ids, contactStatuses) ==> r.contacts[c].flags.Free?
  }

  lemma OneMoreDomain(r: Registry, done: set<DomainId>, d: DomainId, statuses: set<string>,
      contactStatuses: set<string>)
    requires done <= r.domains.Keys && d in r.domains && d !in done && r.domains[d].flags.Free?
    ensures DomainsBlocked(r, done + {d}, statuses, map[]) ==
      DomainsBlocked(r, done, statuses, map[])[d := BlockedDomain(r, d, statuses, map[])]
    ensures BlockedOwners(r, done + {d}, contactStatuses) ==
      if contactStatuses == {} then {} else BlockedOwners(r, done, contactStatuses) + {r.domains[d].owner}
  {
  }

  lemma OneMoreContact(r: Registry, cs: set<ContactId>, c: ContactId, statuses: set<string>)
    requires c in r.contacts
    ensures ContactsBlocked(r, cs + {c}, statuses) ==
      ContactsBlocked(r, cs, statuses)[c := r.contacts[c].(flags := Block(r.contacts[c].flags, statuses))]
  {
  }

  /** The state of the loop: the registry so far, the owners met, and the errors collected. */
  datatype Progress = Progress(
    registry: Registry, met: set<ContactId>, notFound: set<DomainId>, already: set<nat>, unknown: set<string>)
  {
    predicate Failed() { notFound != {} || already != {} || unknown != {} }

    function BlockContact(o: ContactId, statuses: set<string>): Progress
      requires o in registry.contacts
    {
      var c := registry.contacts[o];
      this.(registry := registry.(contacts := registry.contacts[o := c.(flags := Block(c.flags, statuses))]),
        met := met + {o})
    }

    function BlockDomain(d: DomainId, statuses: set<string>, known: set<string>): Progress
      requires d in registry.domains
    {
      if registry.domains[d].flags.Blocked? then this.(already := already + {d})
      else if !(statuses <= known) then this.(unknown := unknown + (statuses - known))
      else this.(registry := registry.(domains := registry.domains[d := BlockedDomain(registry, d, statuses, map[])]))
    }
  }

  /** One turn of the loop: the owner's block request the first time the owner is met, then the domain's. */
  function Turn(p: Progress, d: DomainId, statuses: set<string>, known: set<string>,
      contactStatuses: set<string>): Progress {
    var r := p.registry;
    if d !in r.domains || r.domains[d].owner !in r.contacts then p.(notFound := p.notFound + {d})
    else
      var o := r.domains[d].owner;
      if o !in p.met && contactStatuses != {} then
        if r.contacts[o].flags.Blocked? then p.(met := p.met + {o}, already := p.already + {o})
        else p.BlockContact(o, contactStatuses).BlockDomain(d, statuses, known)
      else p.BlockDomain(d, statuses, known)
  }

  ghost function Clean(r: Registry, done: set<DomainId>, statuses: set<string>, contactStatuses: set<string>): Progress
    requires done <= r.domains.Keys
  {
    Progress(DomainAndOwner(r, done, statuses, contactStatuses), BlockedOwners(r, done, contactStatuses), {}, {}, {})
  }

  lemma CanBlockOneMore(r: Registry, done: set<DomainId>, d: DomainId, statuses: set<string>, known: set<string>,
      contactStatuses: set<string>)
    requires Valid(r) && done <= r.domains.Keys && d in r.domains
    requires CanBlockWithOwners(r, done, statuses, known, contactStatuses)
    ensures CanBlockWithOwners(r, done + {d}, statuses, known, contactStatuses) <==>
      && r.domains[d].flags.Free? && statuses <= known
      && (contactStatuses != {} ==> r.contacts[r.domains[d].owner].flags.Free?)
  {
    assert d in done + {d};
    assert Owners(r, done + {d}) == Owners(r, done) + {r.domains[d].owner};
  }

  lemma GoodTurn(r: Registry, done: set<DomainId>, d: DomainId, statuses: set<string>, known: set<string>,
      contactStatuses: set<string>)
    requires Valid(r) && done <= r.domains.Keys && d in r.domains && d !in done
    requires r.domains[d].flags.Free? && statuses <= known
    requires contactStatuses != {} ==> r.contacts[r.domains[d].owner].flags.Free?
    ensures Turn(Clean(r, done, statuses, contactStatuses), d, statuses, known, contactStatuses) ==
      Clean(r, done + {d}, statuses, contactStatuses)
  {
    var p := Clean(r, done, statuses, contactStatuses);
    var o := r.domains[d].owner;
    OneMoreDomain(r, done, d, statuses, contactStatuses);
    assert p.registry.domains[d] == r.domains[d];
    if contactStatuses != {} && o !in p.met {
      OneMoreContact(r, p.met, o, contactStatuses);
      assert p.registry.contacts[o] == r.contacts[o];
    } else if contactStatuses != {} {
      assert p.met + {o} == p.met;
    }
  }

  /** As long as nothing is in the way, a turn blocks exactly its domain and its owner; otherwise it collects an
      error. */
  lemma CleanTurn(r: Registry, done: set<DomainId>, d: DomainId, statuses: set<string>, known: set<string>,
      contactStatuses: set<string>)
    requires Valid(r) && done <= r.domains.Keys && d in r.domains && d !in done
    requires CanBlockWithOwners(r, done, statuses, known, contactStatuses)
    ensures var q := Turn(Clean(r, done, statuses, contactStatuses), d, statuses, known, contactStatuses);
      if CanBlockWithOwners(r, done + {d}, statuses, known, contactStatuses)
      then q == Clean(r, done + {d}, statuses, contactStatuses)
      else q.Failed()
  {
    CanBlockOneMore(r, done, d, statuses, known, contactStatuses);
    if CanBlockWithOwners(r, done + {d}, statuses, known, contactStatuses) {
      GoodTurn(r, done, d, statuses, known, contactStatuses);
    } else {
      BadTurn(r, done, d, statuses, known, contactStatuses);
    }
  }

  lemma BadTurn(r: Registry, done: set<DomainId>, d: DomainId, statuses: set<string>, known: set<string>,
      contactStatuses: set<string>)
    requires Valid(r) && done <= r.domains.Keys && d in r.domains && d !in done
    requires forall c :: c in BlockedOwners(r, done, contactStatuses) ==> r.contacts[c].flags.Free?
    requires
      || r.domains[d].flags.Blocked? || !(statuses <= known)
      || (contactStatuses != {} && r.contacts[r.domains[d].owner].flags.Blocked?)
    ensures Turn(Clean(r, done, statuses, contactStatuses), d, statuses, known, contactStatuses).Failed()
  {
    var p := Clean(r, done, statuses, contactStatuses);
    assert p.registry.domains[d] == r.domains[d];
    if !(statuses <= known) {
      var x :| x in statuses && x !in known;
      assert x in statuses - known;
    }
  }

  lemma FailedStays(p: Progress, d: DomainId, statuses: set<string>, known: set<string>, contactStatuses: set<string>)
    requires p.Failed()
    ensures Turn(p, d, statuses, known, contactStatuses).Failed()
  {
  }

  /** What the loop has done so far. */
  ghost predicate SoFar(r: Registry, p: Progress, ids: set<DomainId>, done: set<DomainId>, statuses: set<string>,
      known: set<string>, contactStatuses: set<string>)
    requires Valid(r) && ids <= r.domains.Keys && done <= ids
  {
    && (p.Failed() <==> !CanBlockWithOwners(r, done, statuses, known, contactStatuses))
    && (!p.Failed() ==> p == Clean(r, done, statuses, contactStatuses))
    && CollectsOnly(r, p, statuses, known)
    && FindsBlocked(r, p, ids, done)
  }

  lemma OneTurnMore(r: Registry, p: Progress, ids: set<DomainId>, done: set<DomainId>, d: DomainId,
      statuses: set<string>, known: set<string>, contactStatuses: set<string>)
    requires Valid(r) && ids <= r.domains.Keys && done <= ids && d in ids && d !in done
    requires SoFar(r, p, ids, done, statuses, known, contactStatuses)
    ensures SoFar(r, Turn(p, d, statuses, known, contactStatuses), ids, done + {d}, statuses, known, contactStatuses)
  {
    if p.Failed() {
      FailedStays(p, d, statuses, known, contactStatuses);
      CannotStays(r, done, d, statuses, known, contactStatuses);
    } else {
      CleanTurn(r, done, d, statuses, known, contactStatuses);
    }
    TurnCollects(r, p, d, statuses, known, contactStatuses);
    TurnFinds(r, p, ids, done, d, statuses, known, contactStatuses);
  }

  /** The loop when owners are blocked with their domains. */
  method BlockWithOwners(r: Registry, ids: set<DomainId>, statuses: set<string>, known: set<string>,
      contactStatuses: set<string>)
      returns (p: Progress)
    requires Valid(r) && ids <= r.domains.Keys
    ensures p.Failed() <==> !CanBlockWithOwners(r, ids, statuses, known, contactStatuses)
    ensures !p.Failed() ==> p.registry == DomainAndOwner(r, ids, statuses, contactStatuses)
    ensures CollectsOnly(r, p, statuses, known)
    ensures forall x :: x in p.already ==> ListedOrOwnerBlocked(r, ids, x)
  {
    p := Progress(r, {}, {}, {}, {});
    var left := ids;
    ghost var done: set<DomainId> := {};
    NothingDone(r, statuses, known, contactStatuses);
    while left != {}
      invariant left !! done && left + done == ids
      invariant SoFar(r, p, ids, done, statuses, known, contactStatuses)
      decreases left
    {
      var d :| d in left;
      OneTurnMore(r, p, ids, done, d, statuses, known, contactStatuses);
      p := Turn(p, d, statuses, known, contactStatuses);
      left, done := left - {d}, done + {d};
    }
    assert done == ids;
  }

  /** What is collected: no domain or owner is ever missing, and of the states exactly those that do not apply. */
  ghost predicate CollectsOnly(r: Registry, p: Progress, statuses: set<string>, known: set<string>) {
    && p.notFound == {} && (p.unknown == {} || p.unknown == statuses - known)
    && p.registry.domains.Keys == r.domains.Keys && p.registry.contacts.Keys == r.contacts.Keys
    && forall d :: d in r.domains ==> p.registry.domains[d].owner == r.domains[d].owner
  }

  /** A listed domain, or the owner of one, that is blocked. */
  predicate ListedOrOwnerBlocked(r: Registry, ids: set<DomainId>, x: nat)
    requires ids <= r.domains.Keys
  {
    || (x in ids && r.domains[x].flags.Blocked?)
    || (x in Owners(r, ids) && x in r.contacts && r.contacts[x].flags.Blocked?)
  }

  /** What is found blocked was so before; what the loop blocks itself it does not find again. */
  ghost predicate FindsBlocked(r: Registry, p: Progress, ids: set<DomainId>, done: set<DomainId>)
    requires ids <= r.domains.Keys
  {
    && (forall x :: x in p.already ==> ListedOrOwnerBlocked(r, ids, x))
    && (forall d :: d in r.domains && d !in done ==> d in p.registry.domains && p.registry.domains[d] == r.domains[d])
    && (forall c :: c in p.registry.contacts && c !in p.met ==>
          c in r.contacts && p.registry.contacts[c] == r.contacts[c])
  }

  lemma TurnFinds(r: Registry, p: Progress, ids: set<DomainId>, done: set<DomainId>, d: DomainId, statuses: set<string>,
      known: set<string>, contactStatuses: set<string>)
    requires ids <= r.domains.Keys && d in ids && d !in done && FindsBlocked(r, p, ids, done)
    ensures FindsBlocked(r, Turn(p, d, statuses, known, contactStatuses), ids, done + {d})
  {
    assert r.domains[d].owner in Owners(r, ids);
  }

  lemma TurnCollects(r: Registry, p: Progress, d: DomainId, statuses: set<string>, known: set<string>,
      contactStatuses: set<string>)
    requires Valid(r) && d in r.domains && CollectsOnly(r, p, statuses, known)
    ensures CollectsOnly(r, Turn(p, d, statuses, known, contactStatuses), statuses, known)
  {
    var o := r.domains[d].owner;
    if o !in p.met && contactStatuses != {} && p.registry.contacts[o].flags.Free? {
      var q := p.BlockContact(o, contactStatuses);
      assert CollectsOnly(r, q, statuses, known);
      DomainCollects(r, q, d, statuses, known);
    } else {
      DomainCollects(r, p, d, statuses, known);
    }
  }

  lemma DomainCollects(r: Registry, p: Progress, d: DomainId, statuses: set<string>, known: set<string>)
    requires d in r.domains && CollectsOnly(r, p, statuses, known)
    ensures CollectsOnly(r, p.BlockDomain(d, statuses, known), statuses, known)
  {
    assert {} + (statuses - known) == statuses - known;
  }

  lemma NothingDone(r: Registry, statuses: set<string>, known: set<string>, contactStatuses: set<string>)
    requires Valid(r)
    ensures CanBlockWithOwners(r, {}, statuses, known, contactStatuses)
    ensures Clean(r, {}, statuses, contactStatuses) == Progress(r, {}, {}, {}, {})
  {
    assert DomainsBlocked(r, {}, statuses, map[]) == r.domains;
    assert ContactsBlocked(r, {}, contactStatuses) == r.contacts;
  }

  lemma CannotStays(r: Registry, done: set<DomainId>, d: DomainId, statuses: set<string>, known: set<string>,
      contactStatuses: set<string>)
    requires Valid(r) && done <= r.domains.Keys && d in r.domains
    requires !CanBlockWithOwners(r, done, statuses, known, contactStatuses)
    ensures !CanBlockWithOwners(r, done + {d}, statuses, known, contactStatuses)
  {
    assert Owners(r, done) <= Owners(r, done + {d});
  }
}
