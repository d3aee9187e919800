/**
  The blocking service. A call works on a copy of the registry, its transaction, and commits it or not.
 */
module AdminService {
  import opened Options
  import opened CopyHandles
  import opened AdminRegistry
  import opened AdminBlock
  import opened AdminUnblock
  import opened AdminBlocking
  import opened AdminEffects

  method KeepingOwner(r: Registry, ids: set<DomainId>, statuses: set<string>, known: set<string>,
      contactStatuses: set<string>) returns (t: Registry, result: Result)
    requires Valid(r) && ids <= r.domains.Keys
    ensures result.Ok? ==> Valid(t) && BlocksAsAsked(r, t, ids, statuses, contactStatuses, KeepOwner, map[])
    ensures SucceedsIf(r, ids, statuses, known, contactStatuses, KeepOwner, result.Ok?)
    ensures result.Err? ==> BlockErrorStands(r, ids, statuses, known, KeepOwner, result.error)
  {
    FreeIsCanBlock(r, ids, statuses, known);
    t, result := BlockOnly(r, ids, statuses, known);
    if result.Ok? {
      KeepOwnerBlocks(r, ids, statuses, contactStatuses, map[]);
    }
  }

  method WithOwner(r: Registry, ids: set<DomainId>, statuses: set<string>, known: set<string>,
      contactStatuses: set<string>) returns (t: Registry, result: Result)
    requires Valid(r) && ids <= r.domains.Keys
    ensures result.Ok? ==> Valid(t) && BlocksAsAsked(r, t, ids, statuses, contactStatuses, BlockOwner, map[])
    ensures SucceedsIf(r, ids, statuses, known, contactStatuses, BlockOwner, result.Ok?)
    ensures result.Err? ==> BlockErrorStands(r, ids, statuses, known, BlockOwner, result.error)
  {
    OwnersConditions(r, ids, statuses, known, contactStatuses);
    OthersAreUnlisted(r, ids);
    forall c ensures c in Owners(r, ids) <==> OwnsListed(r, ids, c) {
      OwnersOwnListed(r, ids, c);
    }
    forall c
      ensures c in MojeIdOwners(r, ids) <==> c in r.contacts && OwnsListed(r, ids, c) && r.contacts[c].mojeId
    {
      MojeIdOwnersAre(r, ids, c);
    }
    t, result := BlockBoth(r, ids, statuses, known, contactStatuses);
    if result.Ok? {
      OwnerIsBlockedToo(r, ids, statuses, contactStatuses, map[]);
    }
  }

  method WithCopies(r: Registry, ids: set<DomainId>, statuses: set<string>, known: set<string>,
      contactStatuses: set<string>) returns (t: Registry, result: Result, copies: map<ContactId, ContactId>)
    requires Valid(r) && ids <= r.domains.Keys
    ensures result.Ok? ==> Valid(t) && BlocksAsAsked(r, t, ids, statuses, contactStatuses, BlockOwnerCopy, copies)
    ensures result.Ok? ==> CopiedEach(r, ids, copies) && ListsAll(r, ids, copies, result.changes)
    ensures SucceedsIf(r, ids, statuses, known, contactStatuses, BlockOwnerCopy, result.Ok?)
    ensures result.Err? ==> BlockErrorStands(r, ids, statuses, known, BlockOwnerCopy, result.error)
  {
    t, result, copies := BlockWithCopies(r, ids, statuses, known, contactStatuses);
    CopiesConditions(r, ids, statuses, known, contactStatuses, result.Ok?);
    if result.Ok? {
      CopiesBlock(r, t, ids, statuses, contactStatuses, copies);
    }
  }

  ghost predicate CopiedEach(r: Registry, ids: set<DomainId>, copies: map<ContactId, ContactId>) {
    ids <= r.domains.Keys && copies.Keys == Owners(r, ids) && Injective(copies)
  }

  lemma CopiesConditions(r: Registry, ids: set<DomainId>, statuses: set<string>, known: set<string>,
      contactStatuses: set<string>, ok: bool)
    requires ids <= r.domains.Keys
    requires CanBlockWithCopies(r, ids, statuses, known) ==> ok
    requires ok ==> ids != {} && AllFree(r, ids) && statuses <= known
    requires ok && OwnersApart(r, Owners(r, ids)) ==> CanBlockWithCopies(r, ids, statuses, known)
    ensures SucceedsIf(r, ids, statuses, known, contactStatuses, BlockOwnerCopy, ok)
  {
    FreeIsCanBlock(r, ids, statuses, known);
  }

  class Blocking {
    var registry: Registry
    const domainStatuses: set<string>
    const contactStatuses: set<string>

    constructor (r: Registry, forDomains: set<string>, forContacts: set<string>)
      ensures registry == r && domainStatuses == forDomains && contactStatuses == forContacts
    {
      registry, domainStatuses, contactStatuses := r, forDomains, forContacts;
    }

    /** blockDomainsId: an error leaves the registry as it was; success is described mode by mode. */
    method BlockDomainsId(ids: set<DomainId>, statuses: set<string>, mode: Mode)
        returns (result: Result, copies: map<ContactId, ContactId>)
      requires Valid(registry)
      modifies this
      ensures Valid(registry)
      ensures result.Err? ==> registry == old(registry)
      ensures result.Err? ==>
        BlockErrorStands(old(registry), ids, statuses, domainStatuses, mode, result.error)
      ensures result.Ok? ==>
        BlocksAsAsked(old(registry), registry, ids, statuses, statuses * contactStatuses, mode, copies)
      ensures SucceedsIf(old(registry), ids, statuses, domainStatuses, statuses * contactStatuses, mode, result.Ok?)
      ensures mode == BlockOwnerCopy && result.Ok? ==>
        CopiedEach(old(registry), ids, copies) && ListsAll(old(registry), ids, copies, result.changes)
    {
      copies := map[];
      SubsetLeavesNothing(ids, registry.domains.Keys);
      if !(ids <= registry.domains.Keys) {
        return Err(DomainIdNotFound(ids - registry.domains.Keys)), copies;
      }
      var ctx;
      var forContacts := statuses * contactStatuses;
      match mode {
        case KeepOwner => ctx, result := KeepingOwner(registry, ids, statuses, domainStatuses, forContacts);
        case BlockOwner => ctx, result := WithOwner(registry, ids, statuses, domainStatuses, forContacts);
        case BlockOwnerCopy => ctx, result, copies := WithCopies(registry, ids, statuses, domainStatuses, forContacts);
      }
      if result.Ok? {
        registry := ctx;  // commit
      }
    }

    /** administrative_unblock_domains. */
    method UnblockDomains(ids: set<DomainId>, newOwner: Option<string>, restore: bool, removeAdmins: bool, today: int)
        returns (error: Option<UnblockError>, ghost plan: Plan, ghost copies: map<ContactId, ContactId>)
      requires Valid(registry)
      modifies this
      ensures Valid(registry)
      ensures error.Some? ==> registry == old(registry)
      ensures error.None? ==> UnblocksAsAsked(old(registry), registry, ids, plan, copies)
      ensures error.None? ==> plan.restore == restore && plan.removeAdmins == removeAdmins && plan.today == today
      ensures error.None? && ids != {} && newOwner.Some? && newOwner.value != "" ==>
        plan.newOwner.Some? && plan.newOwner.value in old(registry).contacts
        && old(registry).contacts[plan.newOwner.value].handle == newOwner.value
      ensures error.None? && (newOwner.None? || newOwner.value == "") ==> plan.newOwner.None?
      ensures CanUnblock(old(registry), ids, newOwner) ==> error.None?
      ensures error.None? && CopiesNamedApart(old(registry), ids, newOwner) ==> CanUnblock(old(registry), ids, newOwner)
      ensures error.Some? ==> UnblockErrorStands(old(registry), ids, newOwner, error.value)
    {
      var ctx;
      ctx, error, plan, copies := UnblockAll(registry, ids, newOwner, restore, removeAdmins, today);
      if error.None? {
        BatchUnblocks(registry, ctx, ids, plan, copies);
        registry := ctx;  // commit
      }
    }
  }
}
