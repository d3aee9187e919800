/**
  The modes of blocking and the batch of unblocking, each working on a copy of the registry, its transaction.
 */
module AdminBlocking {
  import opened Options
  import opened CopyHandles
  import opened AdminRegistry
  import opened AdminBlock
  import opened AdminUnblock

  /** The new owners of the listed domains: the copies, if any of the statuses applies to contacts. */
  function NewOwners(r: Registry, ids: set<DomainId>, copies: map<ContactId, ContactId>, contactStatuses: set<string>):
      map<DomainId, ContactId>
    requires ids <= r.domains.Keys && Owners(r, ids) <= copies.Keys
  {
    if contactStatuses == {} then map[]
    else map d | d in ids :: assert r.domains[d].owner in Owners(r, ids); copies[r.domains[d].owner]
  }

  /** What blocking with copies of the owners commits. */
  ghost predicate BlockedWithCopies(r: Registry, t: Registry, ids: set<DomainId>, statuses: set<string>,
      contactStatuses: set<string>, copies: map<ContactId, ContactId>)
  {
    && ids <= r.domains.Keys && AllFree(r, ids)
    && copies.Keys == Owners(r, ids) && Injective(copies)
    && t.domains == DomainsBlocked(r, ids, statuses, NewOwners(r, ids, copies, contactStatuses))
    && (forall c :: c in r.contacts ==> c in t.contacts && t.contacts[c] == r.contacts[c])
    && (forall c :: c in t.contacts ==> c in r.contacts || Made(copies, c))
    && (forall o :: o in copies ==> IsBlockedCopy(r, t, o, copies[o], contactStatuses))
  }

  predicate IsBlockedCopy(r: Registry, t: Registry, o: ContactId, copy: ContactId, statuses: set<string>) {
    && o in r.contacts && copy !in r.contacts && copy in t.contacts
    && t.contacts[copy] == CopyOf(r.contacts[o], t.contacts[copy].handle).(flags := Flags.Blocked(statuses, {}))
    && r.contacts[o].handle + SUFFIX < t.contacts[copy].handle
  }

  /**
    Blocking with copies, when some status applies to contacts: listed domains share a new owner exactly if they shared
    the old one, each owner is copied once, and unlisted domains and all original contacts stay as they were.
   */
  lemma CopiesKeepSharing(r: Registry, t: Registry, ids: set<DomainId>, statuses: set<string>,
      contactStatuses: set<string>, copies: map<ContactId, ContactId>, d: DomainId, e: DomainId)
    requires BlockedWithCopies(r, t, ids, statuses, contactStatuses, copies) && contactStatuses != {}
    requires d in ids && e in r.domains
    ensures d in t.domains && t.domains[d].flags == Flags.Blocked(statuses, r.domains[d].flags.states)
    ensures t.domains[d].owner !in r.contacts &&
      IsBlockedCopy(r, t, r.domains[d].owner, t.domains[d].owner, contactStatuses)
    ensures e in ids ==>
      e in t.domains && (t.domains[d].owner == t.domains[e].owner <==> r.domains[d].owner == r.domains[e].owner)
    ensures e !in ids ==> e in t.domains && t.domains[e] == r.domains[e]
  {
    assert r.domains[d].owner in Owners(r, ids);
    assert IsBlockedCopy(r, t, r.domains[d].owner, copies[r.domains[d].owner], contactStatuses);
    if e in ids {
      assert r.domains[e].owner in Owners(r, ids);
    }
  }

  /** The copies are as many as the owners they were made for. */
  lemma {:induction false} OneCopyEach(copies: map<ContactId, ContactId>)
    requires Injective(copies)
    ensures |copies.Values| == |copies.Keys|
    decreases |copies.Keys|
  {
    if copies.Keys == {} {
      assert copies.Values == {};
    } else {
      var o :| o in copies;
      var rest := copies - {o};
      assert rest.Keys == copies.Keys - {o};
      OneCopyEach(rest);
      assert copies.Values == rest.Values + {copies[o]} by {
        assert forall p :: p in rest ==> copies[p] == rest[p];
        forall v | v in copies.Values ensures v in rest.Values + {copies[o]} {
          var p :| p in copies && copies[p] == v;
          assert p != o ==> rest[p] == v;
        }
      }
      assert copies[o] !in rest.Values;
    }
  }

  /** The loop that blocks the copies. */
  method BlockCopies(r: Registry, copies: map<ContactId, ContactId>, statuses: set<string>) returns (t: Registry)
    requires forall o :: o in copies ==> copies[o] in r.contacts
    ensures t == r.(contacts := ContactsBlocked(r, copies.Values, statuses))
  {
    t := r;
    var left := copies.Values;
    ghost var done: set<ContactId> := {};
    assert ContactsBlocked(r, {}, statuses) == r.contacts;
    while left != {}
      invariant left !! done && left + done == copies.Values
      invariant t == r.(contacts := ContactsBlocked(r, done, statuses))
      decreases left
    {
      var c :| c in left;
      OneMoreContact(r, done, c, statuses);
      assert t.contacts[c] == r.contacts[c];
      t := t.(contacts := t.contacts[c := t.contacts[c].(flags := Block(t.contacts[c].flags, statuses))]);
      left, done := left - {c}, done + {c};
    }
    assert done == copies.Values;
  }

  lemma CopiesBlocked(r: Registry, s: Registry, t: Registry, copies: map<ContactId, ContactId>, statuses: set<string>)
    requires CopiesMade(r, s, copies)
    requires t.contacts == ContactsBlocked(s, copies.Values, statuses)
    ensures forall c :: c in r.contacts ==> c in t.contacts && t.contacts[c] == r.contacts[c]
    ensures forall c :: c in t.contacts ==> c in r.contacts || Made(copies, c)
    ensures forall o :: o in copies ==> IsBlockedCopy(r, t, o, copies[o], statuses)
  {
    forall o | o in copies ensures copies[o] !in r.contacts {
      assert IsCopy(r, s, o, copies[o]);
    }
    forall o | o in copies ensures IsBlockedCopy(r, t, o, copies[o], statuses) {
      assert IsCopy(r, s, o, copies[o]);
      assert copies[o] in copies.Values;
    }
  }

  /** The result list: for every listed domain its owner and that owner's copy. */
  method ListChanges(ids: set<DomainId>, ownerOf: map<DomainId, ContactId>, copies: map<ContactId, ContactId>)
      returns (changes: seq<OwnerChange>)
    requires ids <= ownerOf.Keys && forall d :: d in ids ==> ownerOf[d] in copies
    ensures |changes| == |ids|
    ensures forall d :: d in ids ==> OwnerChange(d, ownerOf[d], copies[ownerOf[d]]) in changes
  {
    changes := [];
    var left := ids;
    while left != {}
      invariant left <= ids && |changes| == |ids| - |left|
      invariant forall d :: d in ids && d !in left ==> OwnerChange(d, ownerOf[d], copies[ownerOf[d]]) in changes
      decreases left
    {
      var d :| d in left;
      changes := changes + [OwnerChange(d, ownerOf[d], copies[ownerOf[d]])];
      left := left - {d};
    }
  }

  /** What the whole transaction amounts to once the copies are there. */
  function CopiesInPlace(r: Registry, s: Registry, ids: set<DomainId>, statuses: set<string>,
      contactStatuses: set<string>, copies: map<ContactId, ContactId>): Registry
    requires ids <= r.domains.Keys && Owners(r, ids) <= copies.Keys
  {
    s.(domains := DomainsBlocked(s, ids, statuses, NewOwners(r, ids, copies, contactStatuses)),
       contacts := ContactsBlocked(s, copies.Values, contactStatuses))
  }

  lemma CopiesInPlaceIsBlocked(r: Registry, s: Registry, ids: set<DomainId>, statuses: set<string>,
      contactStatuses: set<string>, copies: map<ContactId, ContactId>)
    requires Valid(r) && Valid(s) && CopiesMade(r, s, copies) && ids <= r.domains.Keys && AllFree(r, ids)
    requires copies.Keys == Owners(r, ids)
    ensures var t := CopiesInPlace(r, s, ids, statuses, contactStatuses, copies);
      Valid(t) && BlockedWithCopies(r, t, ids, statuses, contactStatuses, copies)
  {
    var t := CopiesInPlace(r, s, ids, statuses, contactStatuses, copies);
    forall d | d in t.domains ensures t.domains[d].owner in t.contacts {
      OwnerInPlace(r, s, ids, statuses, contactStatuses, copies, d);
    }
    StaysValid(s, t);
    CopiesInPlaceIsOnlyThat(r, s, ids, statuses, contactStatuses, copies);
  }

  lemma CopiesInPlaceIsOnlyThat(r: Registry, s: Registry, ids: set<DomainId>, statuses: set<string>,
      contactStatuses: set<string>, copies: map<ContactId, ContactId>)
    requires CopiesMade(r, s, copies) && ids <= r.domains.Keys && AllFree(r, ids)
    requires copies.Keys == Owners(r, ids)
    ensures BlockedWithCopies(r, CopiesInPlace(r, s, ids, statuses, contactStatuses, copies),
      ids, statuses, contactStatuses, copies)
  {
    CopiesBlocked(r, s, CopiesInPlace(r, s, ids, statuses, contactStatuses, copies), copies, contactStatuses);
  }

  lemma OwnerInPlace(r: Registry, s: Registry, ids: set<DomainId>, statuses: set<string>,
      contactStatuses: set<string>, copies: map<ContactId, ContactId>, d: DomainId)
    requires Valid(r) && CopiesMade(r, s, copies) && ids <= r.domains.Keys && copies.Keys == Owners(r, ids)
    requires d in r.domains
    ensures var t := CopiesInPlace(r, s, ids, statuses, contactStatuses, copies); t.domains[d].owner in t.contacts
  {
    var o := r.domains[d].owner;
    assert o in s.contacts;
    if d in ids {
      assert o in Owners(r, ids);
      assert IsCopy(r, s, o, copies[o]);
    }
  }

  /** Nothing in the way of blocking the domains and copying their owners. */
  ghost predicate CanBlockWithCopies(r: Registry, ids: set<DomainId>, statuses: set<string>, known: set<string>)
    requires ids <= r.domains.Keys
  {
    ids != {} && AllFree(r, ids) && statuses <= known && Room(r, Owners(r, ids))
  }

  /** The transaction of blocking with copies: copies first, then the domains, then the copies' own blocks. */
  method BlockWithCopies(r: Registry, ids: set<DomainId>, statuses: set<string>, known: set<string>,
      contactStatuses: set<string>)
      returns (t: Registry, result: Result, copies: map<ContactId, ContactId>)
    requires Valid(r) && ids <= r.domains.Keys
    ensures result.Ok? ==> Valid(t) && BlockedWithCopies(r, t, ids, statuses, contactStatuses, copies)
    ensures result.Ok? ==> ListsAll(r, ids, copies, result.changes)
    ensures CanBlockWithCopies(r, ids, statuses, known) ==> result.Ok?
    ensures result.Ok? ==> ids != {} && AllFree(r, ids) && statuses <= known
    ensures result.Err? ==>
      || (result.error == InternalServerError && (ids == {} || !Room(r, Owners(r, ids))))
      || CollectedError(r, ids, statuses, known, result.error)
    ensures result.Ok? && OwnersApart(r, Owners(r, ids)) ==> CanBlockWithCopies(r, ids, statuses, known)
  {
    t, copies, result := r, map[], Err(InternalServerError);
    if ids == {} {
      return;  // the query for the owners of no domain is not SQL
    }
    var s, ownerOf, ok;
    ghost var order;
    s, ownerOf, copies, ok, order := CopyDomainOwners(r, ids);
    if !ok {
      return;
    }
    t, result := BlockCopied(r, s, ids, ownerOf, statuses, known, contactStatuses, copies);
    if result.Ok? {
      CopiesInPlaceIsBlocked(r, s, ids, statuses, contactStatuses, copies);
    }
  }

  /** Every listed domain is reported once, with its owner and that owner's copy. */
  ghost predicate ListsAll(r: Registry, ids: set<DomainId>, copies: map<ContactId, ContactId>,
      changes: seq<OwnerChange>)
    requires ids <= r.domains.Keys
  {
    && |changes| == |ids|
    && forall d :: d in ids ==>
         r.domains[d].owner in copies && OwnerChange(d, r.domains[d].owner, copies[r.domains[d].owner]) in changes
  }

  method BlockCopied(r: Registry, s: Registry, ids: set<DomainId>, ownerOf: map<DomainId, ContactId>,
      statuses: set<string>, known: set<string>, contactStatuses: set<string>, copies: map<ContactId, ContactId>)
      returns (t: Registry, result: Result)
    requires ids <= r.domains.Keys && s.domains == r.domains && ids != {}
    requires ownerOf == map d | d in ids :: r.domains[d].owner
    requires copies.Keys == Owners(r, ids) && forall o :: o in copies ==> copies[o] in s.contacts
    ensures result.Ok? <==> AllFree(r, ids) && statuses <= known
    ensures result.Ok? ==> t == CopiesInPlace(r, s, ids, statuses, contactStatuses, copies)
    ensures result.Ok? ==> ListsAll(r, ids, copies, result.changes)
    ensures result.Err? ==> CollectedError(r, ids, statuses, known, result.error)
  {
    forall d | d in ids ensures ownerOf[d] in copies {
      assert r.domains[d].owner in Owners(r, ids);
    }
    var newOwner := NewOwners(r, ids, copies, contactStatuses);
    var already, unknown;
    t, already, unknown := BlockEach(s, ids, statuses, known, newOwner);
    t := BlockCopies(t, copies, contactStatuses);
    var changes := ListChanges(ids, ownerOf, copies);
    result := Collected(already, unknown, changes);
    CollectedSays(r, ids, statuses, known, already, unknown, changes);
  }

  lemma CollectedSays(r: Registry, ids: set<DomainId>, statuses: set<string>, known: set<string>,
      already: set<DomainId>, unknown: set<string>, changes: seq<OwnerChange>)
    requires ids <= r.domains.Keys && ids != {} && already == set d | d in ids && r.domains[d].flags.Blocked?
    requires unknown == if ids - already == {} then {} else statuses - known
    ensures var result := Collected(already, unknown, changes);
      && (result.Ok? <==> AllFree(r, ids) && statuses <= known)
      && (if result.Ok? then result.changes == changes else CollectedError(r, ids, statuses, known, result.error))
  {
    AllFreeUnlessCollected(r, ids, already);
    SubsetLeavesNothing(statuses, known);
  }

  lemma SubsetLeavesNothing<T>(a: set<T>, b: set<T>)
    ensures a <= b <==> a - b == {}
  {
    if !(a <= b) {
      var x :| x in a && x !in b;
      assert x in a - b;
    }
  }

  lemma AllFreeUnlessCollected(r: Registry, ids: set<DomainId>, already: set<DomainId>)
    requires ids <= r.domains.Keys && already == set d | d in ids && r.domains[d].flags.Blocked?
    ensures already == {} <==> AllFree(r, ids)
    ensures already == {} && ids != {} ==> ids - already != {}
  {
    if already == {} {
      forall d | d in ids ensures r.domains[d].flags.Free? {
        assert d !in already;
      }
    }
  }

  /** What the loop over the domains can complain about. */
  predicate CollectedError(r: Registry, ids: set<DomainId>, statuses: set<string>, known: set<string>, e: Error)
    requires ids <= r.domains.Keys
  {
    || (e == AlreadyBlocked(set d | d in ids && r.domains[d].flags.Blocked?) && e.ids != {})
    || (e == UnknownStatus(statuses - known) && e.statuses != {})
  }

  function Collected(already: set<nat>, unknown: set<string>, changes: seq<OwnerChange>): Result {
    if already != {} then Err(AlreadyBlocked(already))
    else if unknown != {} then Err(UnknownStatus(unknown))
    else Ok(changes)
  }

  /** Domains of the listed domains' owners that are not listed themselves. */
  function OtherDomains(r: Registry, ids: set<DomainId>): set<DomainId>
    requires ids <= r.domains.Keys
  {
    set d | d in r.domains && d !in ids && r.domains[d].owner in Owners(r, ids)
  }

  function MojeIdOwners(r: Registry, ids: set<DomainId>): set<ContactId>
    requires ids <= r.domains.Keys
  {
    set c | c in Owners(r, ids) && c in r.contacts && r.contacts[c].mojeId
  }

  lemma OwnersBlockedIsValid(r: Registry, ids: set<DomainId>, statuses: set<string>, contactStatuses: set<string>)
    requires Valid(r) && ids <= r.domains.Keys
    ensures Valid(DomainAndOwner(r, ids, statuses, contactStatuses))
  {
    StaysValid(r, DomainAndOwner(r, ids, statuses, contactStatuses));
  }

  lemma DomainsBlockedIsValid(r: Registry, ids: set<DomainId>, statuses: set<string>)
    requires Valid(r) && ids <= r.domains.Keys
    ensures Valid(r.(domains := DomainsBlocked(r, ids, statuses, map[])))
  {
    StaysValid(r, r.(domains := DomainsBlocked(r, ids, statuses, map[])));
  }

  datatype UnblockError =
    | UnblockDomainIdNotFound(ids: set<DomainId>)
    | DomainIdNotBlocked(ids: set<DomainId>)
    | NewOwnerDoesNotExist(handle: string)
    | UnblockInternalServerError

  method FindByHandle(r: Registry, handle: string) returns (c: Option<ContactId>)
    ensures c.Some? ==> c.value in r.contacts && r.contacts[c.value].handle == handle
    ensures c.None? ==> forall d :: d in r.contacts ==> r.contacts[d].handle != handle
  {
    var left := r.contacts.Keys;
    while left != {}
      invariant left <= r.contacts.Keys
      invariant forall d :: d in r.contacts && d !in left ==> r.contacts[d].handle != handle
      decreases left
    {
      var d :| d in left;
      if r.contacts[d].handle == handle {
        return Some(d);
      }
      left := left - {d};
    }
    c := None;
  }

  method BlockOnly(r: Registry, ids: set<DomainId>, statuses: set<string>, known: set<string>)
      returns (t: Registry, result: Result)
    requires Valid(r) && ids <= r.domains.Keys
    ensures result.Ok? ==>
      Valid(t) && AllFree(r, ids) && t == r.(domains := DomainsBlocked(r, ids, statuses, map[]))
    ensures result.Ok? <==> AllFree(r, ids) && (ids != {} ==> statuses <= known)
    ensures result.Err? ==> CollectedError(r, ids, statuses, known, result.error)
  {
    var already, unknown;
    t, already, unknown := BlockEach(r, ids, statuses, known, map[]);
    result := Collected(already, unknown, []);
    AllFreeUnlessCollected(r, ids, already);
    SubsetLeavesNothing(statuses, known);
    DomainsBlockedIsValid(r, ids, statuses);
    if ids == {} {
      assert DomainsBlocked(r, ids, statuses, map[]) == r.domains;
    }
  }

  method BlockBoth(r: Registry, ids: set<DomainId>, statuses: set<string>, known: set<string>,
      contactStatuses: set<string>)
      returns (t: Registry, result: Result)
    requires Valid(r) && ids <= r.domains.Keys
    ensures result.Ok? <==>
      && OtherDomains(r, ids) == {} && MojeIdOwners(r, ids) == {}
      && CanBlockWithOwners(r, ids, statuses, known, contactStatuses)
    ensures result.Ok? ==> Valid(t) && t == DomainAndOwner(r, ids, statuses, contactStatuses)
    ensures result.Err? ==>
      match result.error
      case OwnerHasOtherDomain(owners) => owners == Owners(r, OtherDomains(r, ids)) && OtherDomains(r, ids) != {}
      case ContactBlockProhibited(owners) => owners == MojeIdOwners(r, ids) != {}
      case AlreadyBlocked(found) => found != {} && forall x :: x in found ==> ListedOrOwnerBlocked(r, ids, x)
      case UnknownStatus(unknown) => unknown == statuses - known != {}
      case _ => false
  {
    t := r;
    var others := OtherDomains(r, ids);
    if others != {} {
      return t, Err(OwnerHasOtherDomain(Owners(r, others)));
    }
    var prohibited := MojeIdOwners(r, ids);
    if prohibited != {} {
      return t, Err(ContactBlockProhibited(prohibited));
    }
    var p := BlockWithOwners(r, ids, statuses, known, contactStatuses);
    result := if p.Failed() then Outcome(p) else Ok([]);
    if !p.Failed() {
      t := p.registry;
      OwnersBlockedIsValid(r, ids, statuses, contactStatuses);
    }
  }

  /** Which of the collected errors is thrown. */
  function Outcome(p: Progress): (e: Result)
    requires p.Failed()
    ensures e.Err?
  {
    if p.notFound != {} then Err(DomainIdNotFound(p.notFound))
    else if p.already != {} then Err(AlreadyBlocked(p.already))
    else Err(UnknownStatus(p.unknown))
  }

  predicate SetsOwner(newOwner: Option<string>) {
    newOwner.Some? && newOwner.value != ""
  }

  ghost predicate AllBlocked(r: Registry, ids: set<DomainId>)
    requires ids <= r.domains.Keys
  {
    forall d :: d in ids ==> r.domains[d].flags.Blocked?
  }

  /** Copies are made of no owner that keeps a domain, or only of owners whose handles are unrelated. */
  ghost predicate CopiesNamedApart(r: Registry, ids: set<DomainId>, newOwner: Option<string>) {
    ids <= r.domains.Keys && (SetsOwner(newOwner) || OwnersApart(r, KeepingOwners(r, ids)))
  }

  /** Nothing in the way of unblocking: the domains are blocked, the new owner exists, and who has to be copied can
      be. */
  ghost predicate CanUnblock(r: Registry, ids: set<DomainId>, newOwner: Option<string>) {
    && ids <= r.domains.Keys && AllBlocked(r, ids)
    && (SetsOwner(newOwner) && ids != {} ==> exists c :: c in r.contacts && r.contacts[c].handle == newOwner.value)
    && (!SetsOwner(newOwner) ==> Room(r, KeepingOwners(r, ids)))
  }

  /** Each error names what was found. */
  ghost predicate UnblockErrorStands(r: Registry, ids: set<DomainId>, newOwner: Option<string>, e: UnblockError) {
    match e
    case UnblockDomainIdNotFound(missing) => missing == ids - r.domains.Keys != {}
    case DomainIdNotBlocked(free) =>
      ids <= r.domains.Keys && free == (set d | d in ids && r.domains[d].flags.Free?) && free != {}
    case NewOwnerDoesNotExist(handle) =>
      newOwner == Some(handle) && forall c :: c in r.contacts ==> r.contacts[c].handle != handle
    case UnblockInternalServerError => ids <= r.domains.Keys && !Room(r, KeepingOwners(r, ids))
  }

  lemma UnblockedIsValid(r: Registry, ids: set<DomainId>, plan: Plan)
    requires Valid(r) && (plan.newOwner.Some? ==> plan.newOwner.value in r.contacts)
    ensures Valid(r.(domains := DomainsUnblocked(r, ids, plan)))
  {
    StaysValid(r, r.(domains := DomainsUnblocked(r, ids, plan)));
  }

  method UnblockAll(r: Registry, ids: set<DomainId>, newOwner: Option<string>, restore: bool, removeAdmins: bool,
      today: int)
      returns (t: Registry, error: Option<UnblockError>, plan: Plan, copies: map<ContactId, ContactId>)
    requires Valid(r)
    ensures error.None? ==> Valid(t) && BatchDone(r, t, ids, plan, copies)
    ensures plan.restore == restore && plan.removeAdmins == removeAdmins && plan.today == today
    ensures error.None? && newOwner.Some? && newOwner.value != "" && ids != {} ==>
      plan.newOwner.Some? && plan.newOwner.value in r.contacts
      && r.contacts[plan.newOwner.value].handle == newOwner.value
    ensures error.None? && (newOwner.None? || newOwner.value == "") ==> plan.newOwner.None?
    ensures CanUnblock(r, ids, newOwner) ==> error.None?
    ensures error.None? && CopiesNamedApart(r, ids, newOwner) ==> CanUnblock(r, ids, newOwner)
    ensures error.Some? ==> UnblockErrorStands(r, ids, newOwner, error.value)
  {
    t, plan, copies := r, Plan(None, restore, removeAdmins, today), map[];
    SubsetLeavesNothing(ids, r.domains.Keys);
    if !(ids <= r.domains.Keys) {
      error := Some(UnblockDomainIdNotFound(ids - r.domains.Keys));
      return;
    }
    if SetsOwner(newOwner) {
      var found := FindByHandle(r, newOwner.value);
      plan := plan.(newOwner := found);
      if found.None? && exists d :: d in ids && r.domains[d].flags.Blocked? {
        error := Some(NewOwnerDoesNotExist(newOwner.value));
        return;
      }
    }
    t, error, copies := UnblockPlanned(r, ids, plan);
  }

  method UnblockPlanned(r: Registry, ids: set<DomainId>, plan: Plan)
      returns (t: Registry, error: Option<UnblockError>, copies: map<ContactId, ContactId>)
    requires Valid(r) && ids <= r.domains.Keys && (plan.newOwner.Some? ==> plan.newOwner.value in r.contacts)
    ensures error.None? ==> Valid(t) && BatchDone(r, t, ids, plan, copies)
    ensures AllBlocked(r, ids) && (plan.newOwner.None? ==> Room(r, KeepingOwners(r, ids))) ==> error.None?
    ensures error.None? ==> AllBlocked(r, ids)
    ensures error.Some? ==> UnblockErrorStands(r, ids, None, error.value)
    ensures error.None? && plan.newOwner.None? && OwnersApart(r, KeepingOwners(r, ids)) ==>
      Room(r, KeepingOwners(r, ids))
  {
    copies, error := map[], None;
    var owners, notBlocked;
    t, owners, notBlocked := UnblockEach(r, ids, plan);
    if notBlocked != {} {
      error := Some(DomainIdNotBlocked(notBlocked));
      return;
    }
    assert forall d :: d in ids ==> r.domains[d].flags.Blocked? by {
      assert forall d :: d in ids ==> d !in notBlocked;
    }
    assert ids - notBlocked == ids;
    UnblockedIsValid(r, ids, plan);
    MoversAreKeepingOwners(r, ids, plan);
    RoomByNames(r, t, KeepingOwners(r, ids));
    var ok;
    t, copies, ok := SettleOwners(t, owners, plan.newOwner.None?);
    if !ok {
      error := Some(UnblockInternalServerError);
    }
  }
}
