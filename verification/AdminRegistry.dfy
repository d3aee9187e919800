/**
  The part of the registry administrative blocking works on: domains, their owners, and who is blocked.
 */
module AdminRegistry {
  import opened Options
  import opened Strings
  import opened Decimals
  import opened CopyHandles
  import opened CopyRoom

  type ContactId = nat
  type DomainId = nat

  /** The manual states of an object; a blocked one remembers those it had before. */
  datatype Flags = Free(states: set<string>) | Blocked(states: set<string>, saved: set<string>)

  datatype Contact = Contact(handle: string, data: string, mojeId: bool, flags: Flags)

  datatype Domain = Domain(fqdn: string, owner: ContactId, admins: set<ContactId>, expiration: int, flags: Flags)

  datatype Registry = Registry(
    contacts: map<ContactId, Contact>, domains: map<DomainId, Domain>, nextContact: ContactId)

  ghost predicate Valid(r: Registry) {
    && (forall c :: c in r.contacts ==> c < r.nextContact && IsHandle(r.contacts[c].handle))
    && (forall d :: d in r.domains ==> r.domains[d].owner in r.contacts)
    && (forall b, c :: b in r.contacts && c in r.contacts && b != c ==> r.contacts[b].handle != r.contacts[c].handle)
  }

  function Owners(r: Registry, ids: set<DomainId>): set<ContactId>
    requires ids <= r.domains.Keys
  {
    set d | d in ids :: r.domains[d].owner
  }

  function Handles(r: Registry): set<string> {
    set c | c in r.contacts :: r.contacts[c].handle
  }

  /** The copy of an owner: the same data under a new handle, with no state. */
  function CopyOf(c: Contact, handle: string): Contact {
    Contact(handle, c.data, false, Free({}))
  }

  /** Every owner got exactly one copy, under a handle of its own, and nothing else changed. */
  ghost predicate CopiesMade(r: Registry, t: Registry, copies: map<ContactId, ContactId>) {
    && t.domains == r.domains
    && (forall c :: c in r.contacts ==> c in t.contacts && t.contacts[c] == r.contacts[c])
    && (forall c :: c in t.contacts ==> c in r.contacts || Made(copies, c))
    && (forall o :: o in copies ==> IsCopy(r, t, o, copies[o]))
    && Injective(copies)
  }

  ghost predicate Made(copies: map<ContactId, ContactId>, c: ContactId) {
    exists o :: o in copies && copies[o] == c
  }

  predicate IsCopy(r: Registry, t: Registry, o: ContactId, copy: ContactId) {
    && o in r.contacts && copy !in r.contacts && copy in t.contacts
    && t.contacts[copy] == CopyOf(r.contacts[o], t.contacts[copy].handle)
    && r.contacts[o].handle + SUFFIX < t.contacts[copy].handle
  }

  ghost predicate Injective(copies: map<ContactId, ContactId>) {
    forall o, p :: o in copies && p in copies && o != p ==> copies[o] != copies[p]
  }

  function WithContact(r: Registry, c: Contact): Registry {
    Registry(r.contacts[r.nextContact := c], r.domains, r.nextContact + 1)
  }

  /** The query's answer over the registered handles. */
  method QueryLast(names: set<string>, stem: string) returns (last: Option<string>)
    ensures IsLast(names, stem, last)
  {
    var left := names;
    last := None;
    while left != {}
      invariant left <= names && IsLast(names - left, stem, last)
      decreases left
    {
      var n :| n in left;
      if Candidate(n, stem) {
        LastOfMore(names - left, stem, last, n);
        if last.None? || Below(last.value, n) {
          last := Some(n);
        }
      }
      left := left - {n};
      assert names - left == names - (left + {n}) + {n};
    }
    assert names - left == names;
  }

  lemma LastOfMore(names: set<string>, stem: string, last: Option<string>, n: string)
    requires IsLast(names, stem, last) && Candidate(n, stem)
    ensures IsLast(names + {n}, stem, if last.None? || Below(last.value, n) then Some(n) else last)
  {
    if last.Some? {
      BelowTotal(last.value, n);
      forall m | m in names && Candidate(m, stem) && Below(last.value, n) ensures Below(m, n) {
        if m != last.value {
          BelowTransitive(m, last.value, n);
        }
      }
    }
  }

  lemma WithContactValid(t: Registry, c: Contact)
    requires Valid(t) && c.handle !in Handles(t) && IsHandle(c.handle)
    ensures Valid(WithContact(t, c)) && t.nextContact !in t.contacts
  {
    forall d | d in t.contacts ensures t.contacts[d].handle != c.handle {
      assert t.contacts[d].handle in Handles(t);
    }
  }

  lemma CopyMade(r: Registry, t: Registry, copies: map<ContactId, ContactId>, o: ContactId, c: Contact)
    requires t.nextContact !in t.contacts && CopiesMade(r, t, copies) && o in r.contacts && o !in copies
    requires c == CopyOf(t.contacts[o], c.handle) && t.contacts[o].handle + SUFFIX < c.handle
    ensures CopiesMade(r, WithContact(t, c), copies[o := t.nextContact])
  {
    var after := WithContact(t, c);
    var more := copies[o := t.nextContact];
    forall c | c in after.contacts ensures c in r.contacts || Made(more, c) {
      if c == t.nextContact {
        assert more[o] == c;
      } else if c !in r.contacts {
        var p :| p in copies && copies[p] == c;
        assert more[p] == c;
      }
    }
    forall p | p in more ensures IsCopy(r, after, p, more[p]) {
      if p != o {
        assert IsCopy(r, t, p, copies[p]);
      }
    }
    forall p | p in copies ensures copies[p] != t.nextContact {
      assert IsCopy(r, t, p, copies[p]);
    }
  }

  /** The owner of each listed domain. */
  method CollectOwners(r: Registry, ids: set<DomainId>)
      returns (ownerOf: map<DomainId, ContactId>, owners: set<ContactId>)
    requires ids <= r.domains.Keys
    ensures ownerOf == map d | d in ids :: r.domains[d].owner
    ensures owners == Owners(r, ids)
  {
    ownerOf, owners := map[], {};
    var left := ids;
    while left != {}
      invariant left <= ids
      invariant ownerOf == map d | d in ids - left :: r.domains[d].owner
      invariant owners == Owners(r, ids - left)
      decreases left
    {
      var d :| d in left;
      assert ids - (left - {d}) == ids - left + {d};
      ownerOf := ownerOf[d := r.domains[d].owner];
      owners := owners + {r.domains[d].owner};
      left := left - {d};
    }
    assert ids - left == ids;
  }

  /** Every owner's next handle is free. */
  ghost predicate Room(r: Registry, owners: set<ContactId>) {
    forall o :: o in owners && o in r.contacts ==> Available(Handles(r), r.contacts[o].handle)
  }

  /** No owner's handle extends the stem for copies of another. */
  ghost predicate OwnersApart(r: Registry, owners: set<ContactId>) {
    forall o, p :: o in owners && p in owners && o in r.contacts && p in r.contacts && o != p ==>
      Apart(r.contacts[o].handle, r.contacts[p].handle)
  }

  /**
    How room for some owners goes on to room for the rest: it never gets lost, and if the owners are apart it does not
    appear either.
   */
  ghost predicate Leads(s: Registry, owners: set<ContactId>, t: Registry, rest: set<ContactId>, ok: bool) {
    && (Room(s, owners) ==> ok && Room(t, rest))
    && (OwnersApart(s, owners) ==> (ok && Room(t, rest) ==> Room(s, owners)))
    && (ok && OwnersApart(s, owners) ==> OwnersApart(t, rest))
  }

  lemma LeadsOn(r: Registry, owners: set<ContactId>, s: Registry, todo: set<ContactId>, t: Registry,
      rest: set<ContactId>, ok: bool)
    requires Leads(r, owners, s, todo, true) && Leads(s, todo, t, rest, ok)
    ensures Leads(r, owners, t, rest, ok)
  {
  }

  lemma HandlesWith(t: Registry, c: Contact)
    requires Valid(t)
    ensures Handles(WithContact(t, c)) == Handles(t) + {c.handle}
  {
    var u := WithContact(t, c);
    forall n | n in Handles(t) + {c.handle} ensures n in Handles(u) {
      if n in Handles(t) {
        var d :| d in t.contacts && t.contacts[d].handle == n;
        assert u.contacts[d].handle == n;
      } else {
        assert u.contacts[t.nextContact].handle == n;
      }
    }
  }

  /** What the copy of one owner means for another. */
  lemma RoomForOther(s: Registry, o: ContactId, last: Option<string>, p: ContactId)
    requires Valid(s) && o in s.contacts && p in s.contacts && o != p
    requires IsLast(Handles(s), s.contacts[o].handle + SUFFIX, last) && LongEnough(s.contacts[o].handle, last)
    requires IsHandle(NextHandle(s.contacts[o].handle, last))
    ensures var a, b := s.contacts[o].handle, s.contacts[p].handle;
      var more := Handles(s) + {NextHandle(a, last)};
      && (Available(Handles(s), b) ==> Available(more, b))
      && (Apart(a, b) ==> (Available(more, b) <==> Available(Handles(s), b)))
  {
    var a, b := s.contacts[o].handle, s.contacts[p].handle;
    if Available(Handles(s), b) {
      AvailableStays(Handles(s), a, last, b);
    }
    if Apart(a, b) {
      ApartIsIndependent(Handles(s), a, last, b);
    }
  }

  lemma CopyLeads(s: Registry, todo: set<ContactId>, o: ContactId, last: Option<string>, copy: Contact)
    requires Valid(s) && todo <= s.contacts.Keys && o in todo
    requires IsLast(Handles(s), s.contacts[o].handle + SUFFIX, last) && LongEnough(s.contacts[o].handle, last)
    requires copy.handle == NextHandle(s.contacts[o].handle, last)
      && IsHandle(copy.handle) && copy.handle !in Handles(s)
    ensures Leads(s, todo, WithContact(s, copy), todo - {o}, true)
  {
    var t := WithContact(s, copy);
    HandlesWith(s, copy);
    AvailableIs(Handles(s), s.contacts[o].handle, last);
    forall p | p in todo && p != o
      ensures p in t.contacts && t.contacts[p] == s.contacts[p]
      ensures Available(Handles(s), s.contacts[p].handle) ==> Available(Handles(t), t.contacts[p].handle)
      ensures Apart(s.contacts[o].handle, s.contacts[p].handle) ==>
        (Available(Handles(t), t.contacts[p].handle) <==> Available(Handles(s), s.contacts[p].handle))
    {
      RoomForOther(s, o, last, p);
    }
  }

  // ---- copying owner after owner ----

  ghost function LastOf(names: set<string>, stem: string): Option<string> {
    if exists last :: IsLast(names, stem, last) then
      var last :| IsLast(names, stem, last);
      last
    else None
  }

  /** The copy the generator makes of an owner. */
  ghost function NextCopy(t: Registry, o: ContactId): Contact
    requires o in t.contacts
  {
    var owner := t.contacts[o].handle;
    var last := LastOf(Handles(t), owner + SUFFIX);
    if LongEnough(owner, last) then CopyOf(t.contacts[o], NextHandle(owner, last)) else t.contacts[o]
  }

  /** Copying under way: an occupied handle ends it. */
  datatype Copying = Copying(registry: Registry, copies: map<ContactId, ContactId>, ok: bool)

  ghost function CopyNext(c: Copying, o: ContactId): Copying {
    var t := c.registry;
    if !c.ok || o !in t.contacts then c
    else if NextCopy(t, o).handle in Handles(t) then c.(ok := false)
    else Copying(WithContact(t, NextCopy(t, o)), c.copies[o := t.nextContact], true)
  }

  ghost function CopyAll(r: Registry, order: seq<ContactId>): Copying {
    if order == [] then Copying(r, map[], true) else CopyNext(CopyAll(r, order[..|order| - 1]), order[|order| - 1])
  }

  predicate Distinct(order: seq<ContactId>) {
    forall j, k :: 0 <= j < k < |order| ==> order[j] != order[k]
  }

  function Elements(order: seq<ContactId>): set<ContactId> {
    set o | o in order
  }

  lemma NextCopyIs(t: Registry, o: ContactId, last: Option<string>)
    requires Valid(t) && o in t.contacts && IsLast(Handles(t), t.contacts[o].handle + SUFFIX, last)
    ensures LongEnough(t.contacts[o].handle, last)
    ensures NextCopy(t, o) == CopyOf(t.contacts[o], NextHandle(t.contacts[o].handle, last))
      && IsHandle(NextCopy(t, o).handle) && t.contacts[o].handle + SUFFIX < NextCopy(t, o).handle
    ensures NextCopy(t, o).handle !in Handles(t) <==> Available(Handles(t), t.contacts[o].handle)
  {
    var owner := t.contacts[o].handle;
    LastIsLongEnough(t, owner, last);
    LastIsUnique(Handles(t), owner + SUFFIX, last, LastOf(Handles(t), owner + SUFFIX));
    NextIsHandle(owner, last);
    NextIsAboveAll(Handles(t), owner, last);
    NextStartsWithStem(owner, last);
    AvailableIs(Handles(t), owner, last);
  }

  method CopyOwner(t: Registry, o: ContactId) returns (copy: Contact, ok: bool)
    requires Valid(t) && o in t.contacts
    ensures copy == NextCopy(t, o) && (ok <==> copy.handle !in Handles(t))
  {
    var owner := t.contacts[o].handle;
    var last := QueryLast(Handles(t), owner + SUFFIX);
    NextCopyIs(t, o, last);
    var handle := GetCopyOwnerHandle(owner, last);
    copy, ok := CopyOf(t.contacts[o], handle), handle !in Handles(t);
  }

  lemma LastExists(names: set<string>, stem: string) returns (last: Option<string>)
    ensures IsLast(names, stem, last)
    decreases names
  {
    if names == {} {
      last := None;
    } else {
      var n :| n in names;
      last := LastExists(names - {n}, stem);
      assert names == (names - {n}) + {n};
      if Candidate(n, stem) {
        LastOfMore(names - {n}, stem, last, n);
        last := if last.None? || Below(last.value, n) then Some(n) else last;
      }
    }
  }

  /** What one more copy keeps. */
  lemma CopyNextKeeps(r: Registry, c: Copying, o: ContactId)
    requires Valid(c.registry) && CopiesMade(r, c.registry, c.copies) && o in r.contacts && o !in c.copies
    ensures var d := CopyNext(c, o);
      && Valid(d.registry) && CopiesMade(r, d.registry, d.copies)
      && d.copies.Keys == if d.ok then c.copies.Keys + {o} else c.copies.Keys
  {
    if c.ok && NextCopy(c.registry, o).handle !in Handles(c.registry) {
      NextCopyMade(r, c.registry, c.copies, o);
    }
  }

  lemma NextCopyMade(r: Registry, t: Registry, copies: map<ContactId, ContactId>, o: ContactId)
    requires Valid(t) && CopiesMade(r, t, copies) && o in r.contacts && o !in copies
    requires NextCopy(t, o).handle !in Handles(t)
    ensures Valid(WithContact(t, NextCopy(t, o)))
    ensures CopiesMade(r, WithContact(t, NextCopy(t, o)), copies[o := t.nextContact])
  {
    var last := LastExists(Handles(t), t.contacts[o].handle + SUFFIX);
    NextCopyIs(t, o, last);
    WithContactValid(t, NextCopy(t, o));
    CopyMade(r, t, copies, o, NextCopy(t, o));
  }

  lemma {:induction false} CopyAllKeeps(r: Registry, order: seq<ContactId>)
    requires Valid(r) && Distinct(order) && forall k :: 0 <= k < |order| ==> order[k] in r.contacts
    ensures var c := CopyAll(r, order);
      && Valid(c.registry) && CopiesMade(r, c.registry, c.copies)
      && (forall o :: o in c.copies ==> o in order) && (c.ok ==> forall o :: o in order ==> o in c.copies)
  {
    if order == [] {
      NoCopiesMade(r);
    } else {
      var front, o := order[..|order| - 1], order[|order| - 1];
      CopyAllKeeps(r, front);
      assert order == front + [o];
      CopyNextKeeps(r, CopyAll(r, front), o);
    }
  }

  /** Room for the owners still to come. */
  lemma CopyNextLeads(r: Registry, c: Copying, todo: set<ContactId>, o: ContactId)
    requires c.ok && Valid(c.registry) && CopiesMade(r, c.registry, c.copies) && todo <= r.contacts.Keys && o in todo
    ensures Leads(c.registry, todo, CopyNext(c, o).registry, todo - {o}, CopyNext(c, o).ok)
  {
    var t := c.registry;
    var last := LastExists(Handles(t), t.contacts[o].handle + SUFFIX);
    NextCopyIs(t, o, last);
    if CopyNext(c, o).ok {
      CopyLeads(t, todo, o, last, NextCopy(t, o));
    }
  }

  lemma {:induction false} CopyAllLeads(r: Registry, owners: set<ContactId>, order: seq<ContactId>)
    requires Valid(r) && Distinct(order) && owners <= r.contacts.Keys
    requires forall k :: 0 <= k < |order| ==> order[k] in owners
    ensures var c := CopyAll(r, order);
      Leads(r, owners, c.registry, owners - Elements(order), c.ok)
  {
    if order == [] {
      assert owners - Elements(order) == owners;
    } else {
      var front, o := order[..|order| - 1], order[|order| - 1];
      assert order == front + [o];
      CopyAllLeads(r, owners, front);
      CopyAllKeeps(r, front);
      var c := CopyAll(r, front);
      var todo := owners - Elements(front);
      assert owners - Elements(order) == todo - {o};
      if c.ok {
        CopyNextLeads(r, c, todo, o);
        LeadsOn(r, owners, c.registry, todo, CopyNext(c, o).registry, todo - {o}, CopyNext(c, o).ok);
      }
    }
  }

  /**
    copy_domain_owners: first who owns what, then one copy per owner; an occupied handle fails. It succeeds if there is
    room for every owner, and for owners apart only then.
   */
  method CopyDomainOwners(r: Registry, ids: set<DomainId>)
      returns (t: Registry, ownerOf: map<DomainId, ContactId>, copies: map<ContactId, ContactId>, ok: bool,
        ghost order: seq<ContactId>)
    requires Valid(r) && ids <= r.domains.Keys
    ensures ownerOf == map d | d in ids :: r.domains[d].owner
    ensures ok ==> Valid(t) && CopiesMade(r, t, copies) && copies.Keys == Owners(r, ids)
    ensures Copying(t, copies, ok) == CopyAll(r, order) && Distinct(order) && (ok ==> Elements(order) == Owners(r, ids))
    ensures Room(r, Owners(r, ids)) ==> ok
    ensures OwnersApart(r, Owners(r, ids)) ==> (ok <==> Room(r, Owners(r, ids)))
  {
    var owners;
    ownerOf, owners := CollectOwners(r, ids);
    t, copies, ok, order := CopyOwners(r, owners);
    AllCopied(r, owners, order);
    RoomDecides(r, owners, order);
  }

  lemma AllCopied(r: Registry, owners: set<ContactId>, order: seq<ContactId>)
    requires Valid(r) && Distinct(order) && owners <= r.contacts.Keys
    requires forall k :: 0 <= k < |order| ==> order[k] in owners
    requires CopyAll(r, order).ok ==> forall o :: o in owners ==> o in order
    ensures var c := CopyAll(r, order);
      c.ok ==>
        Valid(c.registry) && CopiesMade(r, c.registry, c.copies) && c.copies.Keys == owners && Elements(order) == owners
  {
    CopyAllKeeps(r, order);
    var c := CopyAll(r, order);
    if c.ok {
      SameElements(c.copies.Keys, order, owners);
    }
  }

  lemma SameElements(keys: set<ContactId>, order: seq<ContactId>, owners: set<ContactId>)
    requires (forall o :: o in keys ==> o in order) && (forall o :: o in order ==> o in keys)
    requires (forall k :: 0 <= k < |order| ==> order[k] in owners) && (forall o :: o in owners ==> o in order)
    ensures keys == owners && Elements(order) == owners
  {
    forall o ensures o in keys <==> o in owners {
    }
  }

  lemma RoomDecides(r: Registry, owners: set<ContactId>, order: seq<ContactId>)
    requires Valid(r) && Distinct(order) && owners <= r.contacts.Keys
    requires forall k :: 0 <= k < |order| ==> order[k] in owners
    requires CopyAll(r, order).ok ==> forall o :: o in owners ==> o in order
    ensures var ok := CopyAll(r, order).ok;
      && (Room(r, owners) ==> ok)
      && (OwnersApart(r, owners) ==> (ok <==> Room(r, owners)))
  {
    CopyAllLeads(r, owners, order);
    var c := CopyAll(r, order);
    if c.ok {
      forall o ensures o !in owners - Elements(order) {
      }
      assert Room(c.registry, owners - Elements(order));
    }
  }

  /** Who is called what. */
  function Named(r: Registry): map<ContactId, string> {
    map c | c in r.contacts :: r.contacts[c].handle
  }

  /** Room is a matter of names only. */
  lemma RoomByNames(s: Registry, t: Registry, owners: set<ContactId>)
    requires Named(s) == Named(t)
    ensures Room(s, owners) <==> Room(t, owners)
    ensures OwnersApart(s, owners) <==> OwnersApart(t, owners)
  {
    assert s.contacts.Keys == Named(s).Keys == t.contacts.Keys;
    forall c | c in s.contacts ensures s.contacts[c].handle == t.contacts[c].handle {
      assert Named(s)[c] == Named(t)[c];
    }
    assert Handles(s) == Handles(t);
  }

  lemma RoomForOne(r: Registry, o: ContactId)
    requires o in r.contacts
    ensures OwnersApart(r, {o}) && (Room(r, {o}) <==> Available(Handles(r), r.contacts[o].handle))
  {
  }

  /** Copying a single owner. */
  lemma CopyAllOne(r: Registry, o: ContactId, order: seq<ContactId>)
    requires o in r.contacts && Distinct(order) && Elements(order) == {o} && CopyAll(r, order).ok
    ensures CopyAll(r, order) == Copying(WithContact(r, NextCopy(r, o)), map[o := r.nextContact], true)
  {
    assert o in Elements(order);
    assert forall k :: 0 <= k < |order| ==> order[k] in Elements(order);
    assert order == [o] && order[..0] == [];
    assert CopyAll(r, order[..0]) == Copying(r, map[], true);
  }

  /** The loop over the owners, in any order. */
  method CopyOwners(r: Registry, owners: set<ContactId>)
      returns (t: Registry, copies: map<ContactId, ContactId>, ok: bool, ghost order: seq<ContactId>)
    requires Valid(r) && owners <= r.contacts.Keys
    ensures Copying(t, copies, ok) == CopyAll(r, order) && Distinct(order)
    ensures forall k :: 0 <= k < |order| ==> order[k] in owners
    ensures ok ==> forall o :: o in owners ==> o in order
  {
    copies, t, ok, order := map[], r, true, [];
    var todo := owners;
    while ok && todo != {}
      invariant Copying(t, copies, ok) == CopyAll(r, order) && Distinct(order)
      invariant forall o :: o in owners <==> o in todo || o in order
      invariant forall o :: o in todo ==> o !in order
      decreases todo
    {
      var o :| o in todo;
      CopyAllKeeps(r, order);
      var copy;
      copy, ok := CopyOwner(t, o);
      if ok {
        copies, t := copies[o := t.nextContact], WithContact(t, copy);
      }
      assert (order + [o])[..|order|] == order;
      order := order + [o];
      todo := todo - {o};
    }
  }

  lemma NoCopiesMade(r: Registry)
    ensures CopiesMade(r, r, map[])
  {
  }

  lemma LastIsLongEnough(t: Registry, handle: string, last: Option<string>)
    requires Valid(t) && IsHandle(handle) && IsLast(Handles(t), handle + SUFFIX, last)
    ensures last.Some? ==> handle + SUFFIX < last.value && IsHandle(last.value)
  {
    if last.Some? {
      StemIsHandle(handle);
      CandidateStartsWithStem(last.value, handle + SUFFIX);
    }
  }

  lemma NextIsHandle(owner: string, last: Option<string>)
    requires IsHandle(owner) && (last.Some? ==> owner + SUFFIX < last.value && IsHandle(last.value))
    ensures IsHandle(NextHandle(owner, last))
  {
    StemIsHandle(owner);
    if last.Some? && AllDigits(Tail(owner, last.value)) {
      PaddedIsDigits((Value(Tail(owner, last.value)) + 1) % TWO_64);
    }
  }

  /** Changing flags, and owners for other contacts there are, leaves a valid registry valid. */
  lemma StaysValid(s: Registry, t: Registry)
    requires Valid(s) && t.nextContact == s.nextContact && t.contacts.Keys == s.contacts.Keys
    requires forall c :: c in s.contacts ==> t.contacts[c].handle == s.contacts[c].handle
    requires forall d :: d in t.domains ==> t.domains[d].owner in t.contacts
    ensures Valid(t)
  {
  }
}
