/**
  Unblocking a list of domains and, as far as possible, their owners. An owner who still has blocked domains is
  unblocked only if those can be handed to a blocked copy of the owner.
 */
module AdminUnblock {
  import opened Options
  import opened CopyHandles
  import opened CopyRoom
  import opened AdminRegistry

  function BlockedDomains(r: Registry, o: ContactId): set<DomainId> {
    set d | d in r.domains && r.domains[d].owner == o && r.domains[d].flags.Blocked?
  }

  function Restored(c: Contact): Contact {
    if c.flags.Blocked? then c.(flags := Free(c.flags.saved)) else c
  }

  /** The copy takes over the block, with the states the owner was blocked with. */
  predicate IsStandIn(r: Registry, t: Registry, o: ContactId, copy: ContactId) {
    && o in r.contacts && copy !in r.contacts && copy in t.contacts
    && t.contacts[copy] ==
         CopyOf(r.contacts[o], t.contacts[copy].handle).(flags := Blocked(r.contacts[o].flags.states, {}))
    && r.contacts[o].handle + SUFFIX < t.contacts[copy].handle
  }

  /** Owners whose blocked domains move to a copy. */
  predicate Moves(r: Registry, o: ContactId, allowCopy: bool) {
    o in r.contacts && r.contacts[o].flags.Blocked? && BlockedDomains(r, o) != {} && allowCopy
  }

  /** Owners who are unblocked. */
  predicate Unblocks(r: Registry, o: ContactId, allowCopy: bool) {
    o in r.contacts && r.contacts[o].flags.Blocked? && (BlockedDomains(r, o) == {} || allowCopy)
  }

  function OwnerAfter(d: Domain, copies: map<ContactId, ContactId>): Domain {
    if d.flags.Blocked? && d.owner in copies then d.(owner := copies[d.owner]) else d
  }

  ghost predicate CopiedOwners(r: Registry, owners: set<ContactId>, allowCopy: bool,
      copies: map<ContactId, ContactId>) {
    forall o :: o in copies <==> o in owners && Moves(r, o, allowCopy)
  }

  ghost predicate StandIns(r: Registry, t: Registry, copies: map<ContactId, ContactId>) {
    Injective(copies) && forall o :: o in copies ==> IsStandIn(r, t, o, copies[o])
  }

  predicate IsSettled(r: Registry, t: Registry, owners: set<ContactId>, allowCopy: bool, c: ContactId) {
    c in r.contacts && c in t.contacts &&
    t.contacts[c] == if c in owners && Unblocks(r, c, allowCopy) then Restored(r.contacts[c]) else r.contacts[c]
  }

  ghost predicate ContactsSettled(r: Registry, t: Registry, owners: set<ContactId>, allowCopy: bool) {
    forall c :: c in r.contacts ==> IsSettled(r, t, owners, allowCopy, c)
  }

  ghost predicate NoOthers(r: Registry, t: Registry, copies: map<ContactId, ContactId>) {
    forall c :: c in t.contacts ==> c in r.contacts || Made(copies, c)
  }

  ghost predicate DomainsSettled(r: Registry, t: Registry, copies: map<ContactId, ContactId>) {
    t.domains == map d | d in r.domains :: OwnerAfter(r.domains[d], copies)
  }

  /** What has happened once some owners have been dealt with. */
  ghost predicate OwnersSettled(r: Registry, t: Registry, owners: set<ContactId>, allowCopy: bool,
      copies: map<ContactId, ContactId>)
  {
    && CopiedOwners(r, owners, allowCopy, copies) && StandIns(r, t, copies)
    && ContactsSettled(r, t, owners, allowCopy) && NoOthers(r, t, copies)
    && DomainsSettled(r, t, copies)
  }

  /** administrative_unblock_contact, as a relation. */
  ghost predicate ContactUnblocked(r: Registry, t: Registry, o: ContactId, allowCopy: bool,
      copies: map<ContactId, ContactId>) {
    OwnersSettled(r, t, {o}, allowCopy, copies)
  }

  /** The loop that hands the blocked domains to the copy. */
  method HandOver(r: Registry, ids: set<DomainId>, copy: ContactId) returns (t: Registry)
    requires ids <= r.domains.Keys
    ensures t == r.(domains := map d | d in r.domains ::
      if d in ids then r.domains[d].(owner := copy) else r.domains[d])
  {
    t := r;
    var left := ids;
    ghost var done: set<DomainId> := {};
    while left != {}
      invariant left !! done && left + done == ids
      invariant t == r.(domains := map d | d in r.domains ::
        if d in done then r.domains[d].(owner := copy) else r.domains[d])
      decreases left
    {
      var d :| d in left;
      t := t.(domains := t.domains[d := t.domains[d].(owner := copy)]);
      left, done := left - {d}, done + {d};
    }
    assert done == ids;
  }

  method UnblockContact(r: Registry, o: ContactId, allowCopy: bool)
      returns (t: Registry, copies: map<ContactId, ContactId>, ok: bool)
    requires Valid(r) && o in r.contacts
    ensures ok ==> Valid(t) && ContactUnblocked(r, t, o, allowCopy, copies)
    ensures ok <==> (Moves(r, o, allowCopy) ==> Available(Handles(r), r.contacts[o].handle))
    ensures ok ==> Named(t) == Named(if Moves(r, o, allowCopy) then WithContact(r, NextCopy(r, o)) else r)
  {
    t, copies, ok := r, map[], true;
    if r.contacts[o].flags.Free? {
      NobodyMoves(r, o, allowCopy);
    } else {
      var blocked := BlockedDomains(r, o);
      if blocked == {} {
        t := t.(contacts := t.contacts[o := Restored(t.contacts[o])]);
        OnlyRestored(r, o, allowCopy);
      } else if allowCopy {
        t, copies, ok := MoveToCopy(r, o, blocked);
      } else {
        NobodyMoves(r, o, allowCopy);
      }
    }
  }

  lemma NobodyMoves(r: Registry, o: ContactId, allowCopy: bool)
    requires o in r.contacts && !Unblocks(r, o, allowCopy)
    ensures ContactUnblocked(r, r, o, allowCopy, map[])
  {
    assert r.domains == map d | d in r.domains :: OwnerAfter(r.domains[d], map[]);
  }

  lemma OnlyRestored(r: Registry, o: ContactId, allowCopy: bool)
    requires Valid(r) && o in r.contacts && r.contacts[o].flags.Blocked? && BlockedDomains(r, o) == {}
    ensures var t := r.(contacts := r.contacts[o := Restored(r.contacts[o])]);
      Valid(t) && ContactUnblocked(r, t, o, allowCopy, map[]) && Named(t) == Named(r)
  {
    assert r.domains == map d | d in r.domains :: OwnerAfter(r.domains[d], map[]);
  }

  method MoveToCopy(r: Registry, o: ContactId, blocked: set<DomainId>)
      returns (t: Registry, copies: map<ContactId, ContactId>, ok: bool)
    requires Valid(r) && o in r.contacts && r.contacts[o].flags.Blocked?
    requires blocked == BlockedDomains(r, o) && blocked != {}
    ensures ok ==> Valid(t) && ContactUnblocked(r, t, o, true, copies)
    ensures ok <==> Available(Handles(r), r.contacts[o].handle)
    ensures ok ==> Named(t) == Named(WithContact(r, NextCopy(r, o)))
  {
    var s;
    s, copies, ok := CopyOneOwner(r, o, blocked);
    t := r;
    if ok {
      t := TakeOver(s, o, copies[o], blocked);
      MovedToCopy(r, s, t, o, copies);
      TakenOverNames(r, s, t, o, copies);
    }
  }

  /** All blocked domains belong to the one owner, so there is one copy. */
  method CopyOneOwner(r: Registry, o: ContactId, blocked: set<DomainId>)
      returns (s: Registry, copies: map<ContactId, ContactId>, ok: bool)
    requires Valid(r) && o in r.contacts && blocked == BlockedDomains(r, o) && blocked != {}
    ensures ok <==> Available(Handles(r), r.contacts[o].handle)
    ensures ok ==> Valid(s) && s == WithContact(r, NextCopy(r, o)) && CopiesMade(r, s, copies)
    ensures ok ==> copies == map[o := r.nextContact] && IsCopy(r, s, o, copies[o])
  {
    var ownerOf;
    ghost var order;
    s, ownerOf, copies, ok, order := CopyDomainOwners(r, blocked);
    assert Owners(r, blocked) == {o};
    RoomForOne(r, o);
    if ok {
      CopyAllOne(r, o, order);
      assert o in copies;
    }
  }

  /** The copy gets its block, the domains go over, and the owner gets back the states from before. */
  method TakeOver(s: Registry, o: ContactId, copy: ContactId, blocked: set<DomainId>) returns (t: Registry)
    requires o in s.contacts && copy in s.contacts && blocked <= s.domains.Keys && o != copy
    ensures t.contacts == s.contacts
      [copy := s.contacts[copy].(flags := Blocked(s.contacts[o].flags.states, {}))][o := Restored(s.contacts[o])]
    ensures t.nextContact == s.nextContact
    ensures t.domains == map d | d in s.domains :: if d in blocked then s.domains[d].(owner := copy) else s.domains[d]
  {
    var standIn := s.contacts[copy].(flags := Blocked(s.contacts[o].flags.states, {}));
    t := HandOver(s.(contacts := s.contacts[copy := standIn]), blocked, copy);
    t := t.(contacts := t.contacts[o := Restored(t.contacts[o])]);
  }

  /** The registry after the copy has taken over, given the one with the copy just made. */
  ghost predicate TakenOver(r: Registry, s: Registry, t: Registry, o: ContactId, copies: map<ContactId, ContactId>) {
    && CopiesMade(r, s, copies) && copies.Keys == {o}
    && IsCopy(r, s, o, copies[o]) && o in s.contacts
    && t.contacts == s.contacts
         [copies[o] := s.contacts[copies[o]].(flags := Blocked(s.contacts[o].flags.states, {}))]
         [o := Restored(s.contacts[o])]
    && t.nextContact == s.nextContact
    && t.domains == map d | d in s.domains ::
         if d in BlockedDomains(r, o) then s.domains[d].(owner := copies[o]) else s.domains[d]
  }

  lemma MovedToCopy(r: Registry, s: Registry, t: Registry, o: ContactId, copies: map<ContactId, ContactId>)
    requires Valid(r) && Valid(s) && o in r.contacts && r.contacts[o].flags.Blocked? && BlockedDomains(r, o) != {}
    requires TakenOver(r, s, t, o, copies)
    ensures Valid(t) && ContactUnblocked(r, t, o, true, copies)
  {
    TakenOverIsValid(r, s, t, o, copies);
    TakenOverSettles(r, s, t, o, copies);
  }

  lemma TakenOverNames(r: Registry, s: Registry, t: Registry, o: ContactId, copies: map<ContactId, ContactId>)
    requires TakenOver(r, s, t, o, copies)
    ensures Named(t) == Named(s)
  {
  }

  lemma TakenOverIsValid(r: Registry, s: Registry, t: Registry, o: ContactId, copies: map<ContactId, ContactId>)
    requires Valid(s) && TakenOver(r, s, t, o, copies)
    ensures Valid(t)
  {
    StaysValid(s, t);
  }

  lemma TakenOverSettles(r: Registry, s: Registry, t: Registry, o: ContactId, copies: map<ContactId, ContactId>)
    requires o in r.contacts && r.contacts[o].flags.Blocked? && BlockedDomains(r, o) != {}
    requires TakenOver(r, s, t, o, copies)
    ensures ContactUnblocked(r, t, o, true, copies)
  {
    forall d | d in r.domains ensures t.domains[d] == OwnerAfter(r.domains[d], copies) {
      assert d in BlockedDomains(r, o) <==> r.domains[d].owner == o && r.domains[d].flags.Blocked?;
    }
    assert t.domains == map d | d in r.domains :: OwnerAfter(r.domains[d], copies);
    assert IsStandIn(r, t, o, copies[o]);
  }

  // ---- all owners ----

  /** Stand-ins are new contacts, so none of them is an owner still to be dealt with. */
  lemma StandInsAreNew(r: Registry, s: Registry, copies: map<ContactId, ContactId>)
    requires StandIns(r, s, copies)
    ensures forall p :: p in copies ==> copies[p] !in r.contacts && copies[p] in s.contacts
  {
    forall p | p in copies ensures copies[p] !in r.contacts && copies[p] in s.contacts {
      assert IsStandIn(r, s, p, copies[p]);
    }
  }

  /** Settling some owners leaves the blocked domains of the others alone. */
  lemma OthersUntouched(r: Registry, s: Registry, done: set<ContactId>, allowCopy: bool,
      copies: map<ContactId, ContactId>, o: ContactId)
    requires CopiedOwners(r, done, allowCopy, copies) && StandIns(r, s, copies) && DomainsSettled(r, s, copies)
    requires IsSettled(r, s, done, allowCopy, o) && o !in done
    ensures BlockedDomains(s, o) == BlockedDomains(r, o) && s.contacts[o] == r.contacts[o]
    ensures Moves(s, o, allowCopy) == Moves(r, o, allowCopy) && Unblocks(s, o, allowCopy) == Unblocks(r, o, allowCopy)
  {
    StandInsAreNew(r, s, copies);
    forall d | d in r.domains ensures d in BlockedDomains(s, o) <==> d in BlockedDomains(r, o) {
      assert s.domains[d] == OwnerAfter(r.domains[d], copies);
    }
  }

  lemma NoOthersComposed(r: Registry, s: Registry, t: Registry, copies: map<ContactId, ContactId>,
      more: map<ContactId, ContactId>)
    requires NoOthers(r, s, copies) && NoOthers(s, t, more) && copies.Keys !! more.Keys
    ensures NoOthers(r, t, copies + more)
  {
    forall c | c in t.contacts && c !in r.contacts ensures Made(copies + more, c) {
      if c in s.contacts {
        var p :| p in copies && copies[p] == c;
        assert (copies + more)[p] == c;
      } else {
        var p :| p in more && more[p] == c;
        assert (copies + more)[p] == c;
      }
    }
  }

  lemma DomainsComposed(r: Registry, s: Registry, t: Registry, copies: map<ContactId, ContactId>,
      more: map<ContactId, ContactId>)
    requires DomainsSettled(r, s, copies) && DomainsSettled(s, t, more)
    requires copies.Keys !! more.Keys && forall p :: p in copies ==> copies[p] !in more
    ensures DomainsSettled(r, t, copies + more)
  {
  }

  lemma StandInsComposed(r: Registry, s: Registry, t: Registry, copies: map<ContactId, ContactId>,
      more: map<ContactId, ContactId>)
    requires StandIns(r, s, copies) && StandIns(s, t, more) && copies.Keys !! more.Keys
    requires forall p :: p in copies ==> copies[p] in t.contacts && t.contacts[copies[p]] == s.contacts[copies[p]]
    requires forall p :: p in more ==> p in r.contacts && s.contacts[p] == r.contacts[p]
    requires r.contacts.Keys <= s.contacts.Keys
    ensures StandIns(r, t, copies + more)
  {
    StandInsAreNew(r, s, copies);
    StandInsAreNew(s, t, more);
    forall p | p in copies + more ensures IsStandIn(r, t, p, (copies + more)[p]) {
      if p in more {
        assert IsStandIn(s, t, p, more[p]);
      } else {
        assert IsStandIn(r, s, p, copies[p]);
      }
    }
  }

  lemma ContactComposed(r: Registry, s: Registry, t: Registry, done: set<ContactId>, allowCopy: bool, o: ContactId,
      c: ContactId)
    requires IsSettled(r, s, done, allowCopy, c) && IsSettled(s, t, {o}, allowCopy, c) && o !in done
    requires c == o ==> Unblocks(s, o, allowCopy) == Unblocks(r, o, allowCopy)
    ensures IsSettled(r, t, done + {o}, allowCopy, c)
  {
  }

  lemma ContactsComposed(r: Registry, s: Registry, t: Registry, done: set<ContactId>, allowCopy: bool, o: ContactId)
    requires ContactsSettled(r, s, done, allowCopy) && ContactsSettled(s, t, {o}, allowCopy) && o !in done
    requires Unblocks(s, o, allowCopy) == Unblocks(r, o, allowCopy)
    ensures ContactsSettled(r, t, done + {o}, allowCopy)
  {
    forall c | c in r.contacts ensures IsSettled(r, t, done + {o}, allowCopy, c) {
      assert IsSettled(r, s, done, allowCopy, c);
      assert IsSettled(s, t, {o}, allowCopy, c);
      ContactComposed(r, s, t, done, allowCopy, o, c);
    }
  }

  lemma CopiedOwnersComposed(r: Registry, s: Registry, done: set<ContactId>, allowCopy: bool,
      copies: map<ContactId, ContactId>, o: ContactId, more: map<ContactId, ContactId>)
    requires CopiedOwners(r, done, allowCopy, copies) && CopiedOwners(s, {o}, allowCopy, more) && o !in done
    requires Moves(s, o, allowCopy) == Moves(r, o, allowCopy)
    ensures CopiedOwners(r, done + {o}, allowCopy, copies + more)
    ensures copies.Keys !! more.Keys && more.Keys <= {o}
  {
  }

  /** What else the next owner leaves alone. */
  lemma NextOwnerApart(r: Registry, s: Registry, t: Registry, copies: map<ContactId, ContactId>, allowCopy: bool,
      o: ContactId)
    requires StandIns(r, s, copies) && ContactsSettled(s, t, {o}, allowCopy) && o in r.contacts
    ensures forall p :: p in copies ==>
      copies[p] != o && copies[p] in t.contacts && t.contacts[copies[p]] == s.contacts[copies[p]]
  {
    StandInsAreNew(r, s, copies);
    forall p | p in copies ensures copies[p] in t.contacts && t.contacts[copies[p]] == s.contacts[copies[p]] {
      assert IsSettled(s, t, {o}, allowCopy, copies[p]);
    }
  }

  lemma OneOwnerMore(r: Registry, s: Registry, t: Registry, done: set<ContactId>, allowCopy: bool,
      copies: map<ContactId, ContactId>, o: ContactId, more: map<ContactId, ContactId>)
    requires OwnersSettled(r, s, done, allowCopy, copies) && o in r.contacts && o !in done
    requires ContactUnblocked(s, t, o, allowCopy, more)
    ensures OwnersSettled(r, t, done + {o}, allowCopy, copies + more)
  {
    assert IsSettled(r, s, done, allowCopy, o);
    OthersUntouched(r, s, done, allowCopy, copies, o);
    CopiedOwnersComposed(r, s, done, allowCopy, copies, o, more);
    NextOwnerApart(r, s, t, copies, allowCopy, o);
    StandInsComposed(r, s, t, copies, more);
    ContactsComposed(r, s, t, done, allowCopy, o);
    NoOthersComposed(r, s, t, copies, more);
    DomainsComposed(r, s, t, copies, more);
  }

  /** The owners whose blocked domains have to move. */
  function Movers(r: Registry, owners: set<ContactId>, allowCopy: bool): set<ContactId> {
    set o | o in owners && Moves(r, o, allowCopy)
  }

  /** Room for the movers still to come, after one owner has been dealt with. */
  lemma SettlingLeads(s: Registry, t: Registry, todo: set<ContactId>, o: ContactId, moves: bool, ok: bool)
    requires Valid(s) && o in s.contacts && todo <= s.contacts.Keys && (o in todo <==> moves)
    requires ok <==> (moves ==> Available(Handles(s), s.contacts[o].handle))
    requires ok ==> Named(t) == Named(if moves then WithContact(s, NextCopy(s, o)) else s)
    ensures Leads(s, todo, t, todo - {o}, ok)
  {
    if moves {
      var last := LastExists(Handles(s), s.contacts[o].handle + SUFFIX);
      NextCopyIs(s, o, last);
      if ok {
        CopyLeads(s, todo, o, last, NextCopy(s, o));
        RoomByNames(WithContact(s, NextCopy(s, o)), t, todo - {o});
      }
    } else {
      assert todo - {o} == todo;
      RoomByNames(s, t, todo);
    }
  }

  /** The loop over the owners. It succeeds if there is room for all who move, and for owners apart only then. */
  method SettleOwners(r: Registry, owners: set<ContactId>, allowCopy: bool)
      returns (t: Registry, copies: map<ContactId, ContactId>, ok: bool)
    requires Valid(r) && owners <= r.contacts.Keys
    ensures ok ==> Valid(t) && OwnersSettled(r, t, owners, allowCopy, copies)
    ensures Room(r, Movers(r, owners, allowCopy)) ==> ok
    ensures OwnersApart(r, Movers(r, owners, allowCopy)) ==> (ok <==> Room(r, Movers(r, owners, allowCopy)))
  {
    t, copies, ok := r, map[], true;
    NothingSettled(r, allowCopy);
    var left, done: set<ContactId> := owners, {};
    ghost var movers := Movers(r, owners, allowCopy);
    while ok && left != {}
      invariant left !! done && left + done == owners
      invariant ok ==> Valid(t) && OwnersSettled(r, t, done, allowCopy, copies)
      invariant Leads(r, movers, t, movers - done, ok)
      decreases left
    {
      var o :| o in left;
      t, copies, ok := SettleOne(r, t, owners, done, allowCopy, copies, o);
      left, done := left - {o}, done + {o};
    }
  }

  method SettleOne(r: Registry, s: Registry, ghost owners: set<ContactId>, ghost done: set<ContactId>, allowCopy: bool,
      before: map<ContactId, ContactId>, o: ContactId)
      returns (t: Registry, copies: map<ContactId, ContactId>, ok: bool)
    requires Valid(s) && OwnersSettled(r, s, done, allowCopy, before) && owners <= r.contacts.Keys
    requires o in owners && o !in done
    requires var movers := Movers(r, owners, allowCopy); Leads(r, movers, s, movers - done, true)
    ensures ok ==> Valid(t) && OwnersSettled(r, t, done + {o}, allowCopy, copies)
    ensures var movers := Movers(r, owners, allowCopy); Leads(r, movers, t, movers - (done + {o}), ok)
  {
    var more;
    ghost var movers := Movers(r, owners, allowCopy);
    StillThere(r, s, done, allowCopy, before, movers, o);
    t, more, ok := UnblockContact(s, o, allowCopy);
    copies := before + more;
    if ok {
      OneOwnerMore(r, s, t, done, allowCopy, before, o, more);
    }
    SettlingLeads(s, t, movers - done, o, Moves(r, o, allowCopy), ok);
    assert movers - (done + {o}) == movers - done - {o};
    LeadsOn(r, movers, s, movers - done, t, movers - (done + {o}), ok);
  }

  /** Owners not yet dealt with are there and move as they would have at the start. */
  lemma StillThere(r: Registry, s: Registry, done: set<ContactId>, allowCopy: bool, copies: map<ContactId, ContactId>,
      movers: set<ContactId>, o: ContactId)
    requires OwnersSettled(r, s, done, allowCopy, copies) && movers <= r.contacts.Keys && o in r.contacts && o !in done
    ensures movers <= s.contacts.Keys && o in s.contacts && Moves(s, o, allowCopy) == Moves(r, o, allowCopy)
  {
    forall c | c in movers ensures c in s.contacts {
      assert IsSettled(r, s, done, allowCopy, c);
    }
    assert IsSettled(r, s, done, allowCopy, o);
    OthersUntouched(r, s, done, allowCopy, copies, o);
  }

  lemma NothingSettled(r: Registry, allowCopy: bool)
    ensures OwnersSettled(r, r, {}, allowCopy, map[])
  {
    assert r.domains == map d | d in r.domains :: OwnerAfter(r.domains[d], map[]);
  }

  // ---- the listed domains ----

  /** How listed domains are unblocked. */
  datatype Plan = Plan(newOwner: Option<ContactId>, restore: bool, removeAdmins: bool, today: int)

  function UnblockedDomain(d: Domain, plan: Plan): Domain
    requires d.flags.Blocked?
  {
    d.(flags := Free(if plan.restore then d.flags.saved else {}),
       owner := if plan.newOwner.Some? then plan.newOwner.value else d.owner,
       expiration := if d.expiration < plan.today then plan.today else d.expiration,
       admins := if plan.removeAdmins then {} else d.admins)
  }

  function DomainsUnblocked(r: Registry, ids: set<DomainId>, plan: Plan): map<DomainId, Domain> {
    map d | d in r.domains ::
      if d in ids && r.domains[d].flags.Blocked? then UnblockedDomain(r.domains[d], plan) else r.domains[d]
  }

  /** The loop over the listed domains. */
  method UnblockEach(r: Registry, ids: set<DomainId>, plan: Plan)
      returns (t: Registry, owners: set<ContactId>, notBlocked: set<DomainId>)
    requires ids <= r.domains.Keys
    ensures t == r.(domains := DomainsUnblocked(r, ids, plan))
    ensures notBlocked == set d | d in ids && r.domains[d].flags.Free?
    ensures owners == Owners(r, ids - notBlocked)
  {
    t, owners, notBlocked := r, {}, {};
    var left := ids;
    ghost var done: set<DomainId> := {};
    while left != {}
      invariant left !! done && left + done == ids
      invariant t == r.(domains := DomainsUnblocked(r, done, plan))
      invariant notBlocked == set d | d in done && r.domains[d].flags.Free?
      invariant owners == Owners(r, done - notBlocked)
      decreases left
    {
      var d :| d in left;
      assert t.domains[d] == r.domains[d];
      if t.domains[d].flags.Free? {
        notBlocked := notBlocked + {d};
        assert done + {d} - notBlocked == done - (notBlocked - {d});
      } else {
        assert done + {d} - notBlocked == done - notBlocked + {d};
        owners := owners + {t.domains[d].owner};
        t := t.(domains := t.domains[d := UnblockedDomain(t.domains[d], plan)]);
      }
      left, done := left - {d}, done + {d};
    }
    assert done == ids;
  }

  // ---- the batch ----

  /** A committed batch: the listed domains are unblocked, then their owners are dealt with. */
  ghost predicate BatchDone(r: Registry, t: Registry, ids: set<DomainId>, plan: Plan,
      copies: map<ContactId, ContactId>) {
    && ids <= r.domains.Keys
    && (forall d :: d in ids ==> r.domains[d].flags.Blocked?)
    && OwnersSettled(r.(domains := DomainsUnblocked(r, ids, plan)), t, Owners(r, ids), plan.newOwner.None?, copies)
  }

  /** The unlisted blocked domains of a contact. */
  ghost predicate KeepsBlockedDomain(r: Registry, ids: set<DomainId>, o: ContactId) {
    exists d :: d in r.domains && d !in ids && r.domains[d].owner == o && r.domains[d].flags.Blocked?
  }

  /** Blocked owners of listed domains who have unlisted blocked domains as well. */
  ghost function KeepingOwners(r: Registry, ids: set<DomainId>): set<ContactId>
    requires ids <= r.domains.Keys
  {
    set o | o in Owners(r, ids) && o in r.contacts && r.contacts[o].flags.Blocked? && KeepsBlockedDomain(r, ids, o)
  }

  lemma MoversAreKeepingOwners(r: Registry, ids: set<DomainId>, plan: Plan)
    requires forall d :: d in ids ==> d in r.domains && r.domains[d].flags.Blocked?
    ensures Movers(r.(domains := DomainsUnblocked(r, ids, plan)), Owners(r, ids), plan.newOwner.None?) ==
      if plan.newOwner.None? then KeepingOwners(r, ids) else {}
  {
    forall o ensures BlockedDomains(r.(domains := DomainsUnblocked(r, ids, plan)), o) != {} <==>
      KeepsBlockedDomain(r, ids, o)
    {
      LeftBlocked(r, ids, plan, o);
    }
  }

  lemma LeftBlocked(r: Registry, ids: set<DomainId>, plan: Plan, o: ContactId)
    requires forall d :: d in ids ==> d in r.domains && r.domains[d].flags.Blocked?
    ensures BlockedDomains(r.(domains := DomainsUnblocked(r, ids, plan)), o) != {} <==> KeepsBlockedDomain(r, ids, o)
  {
    var mid := r.(domains := DomainsUnblocked(r, ids, plan));
    forall d | d in r.domains
      ensures d in BlockedDomains(mid, o) <==> d !in ids && r.domains[d].owner == o && r.domains[d].flags.Blocked?
    {
    }
    if KeepsBlockedDomain(r, ids, o) {
      var d :| d in r.domains && d !in ids && r.domains[d].owner == o && r.domains[d].flags.Blocked?;
      assert d in BlockedDomains(mid, o);
    }
  }

  /** The three ways a blocked owner of a listed domain can end. */
  lemma OwnerEnds(r: Registry, t: Registry, ids: set<DomainId>, plan: Plan, copies: map<ContactId, ContactId>,
      o: ContactId)
    requires Valid(r) && BatchDone(r, t, ids, plan, copies)
    requires o in Owners(r, ids) && r.contacts[o].flags.Blocked?
    ensures o in t.contacts
    ensures !KeepsBlockedDomain(r, ids, o) ==> t.contacts[o] == Restored(r.contacts[o]) && o !in copies
    ensures KeepsBlockedDomain(r, ids, o) && plan.newOwner.None? ==>
      t.contacts[o] == Restored(r.contacts[o]) && o in copies && IsStandIn(r, t, o, copies[o])
    ensures KeepsBlockedDomain(r, ids, o) && plan.newOwner.Some? ==> t.contacts[o] == r.contacts[o]
  {
    var mid := r.(domains := DomainsUnblocked(r, ids, plan));
    LeftBlocked(r, ids, plan, o);
    assert IsSettled(mid, t, Owners(r, ids), plan.newOwner.None?, o);
    if o in copies {
      assert IsStandIn(mid, t, o, copies[o]);
    }
  }

  lemma OwningBlockedMeansBlocked(r: Registry, t: Registry, ids: set<DomainId>, plan: Plan,
      copies: map<ContactId, ContactId>, o: ContactId, d: DomainId)
    requires Valid(r) && BatchDone(r, t, ids, plan, copies)
    requires o in Owners(r, ids) && r.contacts[o].flags.Blocked? && d in BlockedDomains(t, o)
    ensures o in t.contacts && t.contacts[o].flags.Blocked?
  {
    var mid := r.(domains := DomainsUnblocked(r, ids, plan));
    OwnerEnds(r, t, ids, plan, copies, o);
    StandInsAreNew(mid, t, copies);
    assert t.domains[d] == OwnerAfter(mid.domains[d], copies);
    assert mid.domains[d].owner == o && d !in ids;
    assert KeepsBlockedDomain(r, ids, o);
  }

  /** No formerly blocked owner of a listed domain is left unblocked while still owning a blocked domain. */
  lemma NoOwnerLeftBehind(r: Registry, t: Registry, ids: set<DomainId>, plan: Plan, copies: map<ContactId, ContactId>,
      o: ContactId)
    requires Valid(r) && BatchDone(r, t, ids, plan, copies)
    requires o in Owners(r, ids) && r.contacts[o].flags.Blocked?
    ensures o in t.contacts && (t.contacts[o].flags.Free? ==> BlockedDomains(t, o) == {})
  {
    OwnerEnds(r, t, ids, plan, copies, o);
    forall d | d in BlockedDomains(t, o) ensures t.contacts[o].flags.Blocked? {
      OwningBlockedMeansBlocked(r, t, ids, plan, copies, o, d);
    }
  }

  /** The blocked domains of an owner who is unblocked all go to the same blocked copy. */
  lemma BlockedOnesMoveTogether(r: Registry, t: Registry, ids: set<DomainId>, plan: Plan,
      copies: map<ContactId, ContactId>, d: DomainId)
    requires Valid(r) && BatchDone(r, t, ids, plan, copies)
    requires d in r.domains && d !in ids
    ensures d in t.domains && t.domains[d] == r.domains[d].(owner := t.domains[d].owner)
    ensures t.domains[d].owner != r.domains[d].owner ==>
      && r.domains[d].flags.Blocked? && r.domains[d].owner in copies
      && t.domains[d].owner == copies[r.domains[d].owner] && IsStandIn(r, t, r.domains[d].owner, t.domains[d].owner)
  {
    var mid := r.(domains := DomainsUnblocked(r, ids, plan));
    assert t.domains[d] == OwnerAfter(mid.domains[d], copies);
    if r.domains[d].owner in copies {
      assert IsStandIn(mid, t, r.domains[d].owner, copies[r.domains[d].owner]);
    }
  }
}
