/**
  The rule for hiding a contact's address: only an identified or validated contact without an organization may.
  It spans mojeID, the domain browser and the disclose flags updater.
 */
module MojeIdAddress {
  import opened Options
  import opened Strings
  import opened MojeIdRequests
  import opened MojeIdContact
  import opened MojeIdInvariants
  import opened RegistryContact
  import opened MojeIdWorld
  import opened MojeIdRuns

  ghost predicate AddressGood(c: Contact) {
    !c.addressDisclosed ==> (Identified in c.states || Validated in c.states) && Blank(c.organization)
  }

  ghost predicate AddressesGood(w: World) {
    && (forall id :: id in w.contacts ==> AddressGood(w.contacts[id]))
    && (forall tid :: tid in w.prepared && w.prepared[tid].Locking? && w.prepared[tid].after.Some? ==>
          AddressGood(Perform(w.prepared[tid].after.value)))
  }

  ghost predicate KeepsAddress(o: Outcome) {
    match o
    case Changed(after, _) => AddressGood(Perform(after))
    case FailedAfter(_, after) => AddressGood(after)
    case _ => true
  }

  /** Cancelling an account drops its validation and leaves the address as it is: harmless only if nothing rests on
      it. */
  ghost predicate Harmless(w: World, op: Operation) {
    op.CancelAccountPrepare? && op.contact in w.contacts ==>
      w.contacts[op.contact].addressDisclosed || Identified in w.contacts[op.contact].states
  }

  /** Cancelling keeps the rule exactly when it did not rest on the validation. */
  lemma CancelKeepsAddressExactlyWhen(c: Contact, now: nat)
    requires Good(c, now) && AddressGood(c) && CancelAccount(c, now).Changed?
    ensures AddressGood(Perform(CancelAccount(c, now).after)) <==> c.addressDisclosed || Identified in c.states
  {
  }

  lemma PreparingKeepsAddress(w: World, op: Operation)
    requires Inv(w) && Prepares(op) && op.contact in w.contacts && Harmless(w, op)
    requires AddressGood(w.contacts[op.contact])
    ensures KeepsAddress(OutcomeOf(w, op))
  {
    var c := w.contacts[op.contact];
    if op.CancelAccountPrepare? && CancelAccount(c, w.clock).Changed? {
      CancelKeepsAddressExactlyWhen(c, w.clock);
    }
  }

  /** Every harmless operation keeps the rule on its contact. */
  lemma OutcomeKeepsAddress(w: World, op: Operation)
    requires Inv(w) && OnContact(op) && op.contact in w.contacts && Harmless(w, op)
    requires AddressGood(w.contacts[op.contact])
    ensures KeepsAddress(OutcomeOf(w, op))
  {
    if Prepares(op) {
      PreparingKeepsAddress(w, op);
      return;
    }
    if Outside(op) {
      OutsideKeepsAddress(w.contacts[op.contact], w.clock, w.nextRequest, op);
    }
  }

  /** A registrar's update either leaves the data as they are or discloses the address. */
  lemma OutsideKeepsAddress(c: Contact, now: nat, id: nat, op: Operation)
    requires Good(c, now) && AddressGood(c) && Outside(op)
    ensures KeepsAddress(OutsideOutcome(c, now, id, op))
  {
    if op.RegistryActs? {
      var states := Foreign(c, op.sets, op.clears, op.attached).states;
      assert Identified in c.states ==> Identified in states;
      assert Validated in c.states ==> Validated in states;
    } else if op.RegistrarUpdates? {
      EppUpdateKeepsAddress(c, now, op.epp);
    }
  }

  /** It does so for system registrars as well. */
  lemma EppUpdateKeepsAddress(c: Contact, now: nat, i: EppInput)
    requires Good(c, now) && AddressGood(c)
    ensures KeepsAddress(EppUpdate(c, now, i))
  {
    var o := EppUpdate(c, now, i);
    if o.Changed? && !o.after.addressDisclosed {
      assert MayHide(c, i);
      assert c.requested - {} == c.states;
      assert c.organization == "" && o.after.organization == "";
    }
  }

  lemma OnContactKeepsAddresses(w: World, op: Operation)
    requires Inv(w) && AddressesGood(w) && Harmless(w, op)
    requires OnContact(op) && op.contact in w.contacts && !Locked(w, op.contact)
    ensures AddressesGood(Step(w, op))
  {
    OutcomeKeepsAddress(w, op);
    if Prepares(op) {
      PrepareKeepsAddresses(w, op.tid, op.contact, OutcomeOf(w, op));
    } else {
      OutcomeKeeps(w, op);
      OutcomeNumbered(w, op);
      ApplyKeepsAddresses(w, op.contact, OutcomeOf(w, op));
    }
  }

  lemma EndKeepsAddresses(w: World, tid: TransactionId)
    requires Inv(w) && AddressesGood(w)
    ensures AddressesGood(CommitPrepared(w, tid)) && AddressesGood(RollbackPrepared(w, tid)) && AddressesGood(Tick(w))
  {
    if tid in w.prepared {
      CommitInstalls(w, tid);
    }
  }

  lemma StepKeepsAddresses(w: World, op: Operation)
    requires Inv(w) && AddressesGood(w) && Harmless(w, op)
    ensures AddressesGood(Step(w, op))
  {
    if op.CreatePrepare? {
      PrepareKeepsAddresses(w, op.tid, w.nextContact, Changed(New(w.clock, w.nextRequest, op.organization), true));
    } else if op.Commit? || op.Rollback? {
      EndKeepsAddresses(w, op.tid);
    } else if op.RegistrarCreates? {
    } else if op.contact in w.contacts && !Locked(w, op.contact) {
      OnContactKeepsAddresses(w, op);
    } else {
      EndKeepsAddresses(w, "");
    }
  }

  lemma PrepareKeepsAddresses(w: World, tid: TransactionId, id: ContactId, o: Outcome)
    requires AddressesGood(w) && KeepsAddress(o)
    ensures AddressesGood(Prepare(w, tid, id, o))
  {
  }

  lemma ApplyKeepsAddresses(w: World, id: ContactId, o: Outcome)
    requires AddressesGood(w) && KeepsAddress(o)
    requires o.Changed? ==> o.after.requested == o.after.states
    ensures AddressesGood(Apply(w, id, o))
  {
    if o.Changed? {
      assert Perform(o.after) == o.after;
    }
  }

  ghost predicate HarmlessRun(w: World, ops: seq<Operation>)
    decreases |ops|
  {
    ops == [] || (Harmless(w, ops[0]) && HarmlessRun(Step(w, ops[0]), ops[1..]))
  }

  /** Over every run of harmless operations a hidden address is that of a verified contact with no organization. */
  lemma {:induction false} HiddenAddressesAreVerified(w: World, ops: seq<Operation>)
    requires Inv(w) && AddressesGood(w) && HarmlessRun(w, ops)
    ensures AddressesGood(Run(w, ops))
    decreases |ops|
  {
    if ops != [] {
      StepKeeps(w, ops[0]);
      StepKeepsAddresses(w, ops[0]);
      HiddenAddressesAreVerified(Step(w, ops[0]), ops[1..]);
    }
  }

  // ---- a run that leaves an unverified contact hidden ----

  /** One contact and nothing outstanding. */
  ghost predicate Settled(w: World, id: ContactId, c: Contact) {
    id in w.contacts && w.contacts[id] == c && w.prepared == map[] && w.storage == map[]
  }

  lemma DirectStep(ops: seq<Operation>, op: Operation, c: Contact)
    requires OnContact(op) && !Prepares(op) && Settled(Run(INITIAL, ops), op.contact, c)
    requires OutcomeOf(Run(INITIAL, ops), op).Changed?
    ensures Settled(Run(INITIAL, ops + [op]), op.contact, OutcomeOf(Run(INITIAL, ops), op).after)
  {
    var w := Run(INITIAL, ops);
    forall tid ensures !Locks(w, tid, op.contact) {
    }
    OneMore(ops, op);
  }

  lemma PreparedAndCommitted(ops: seq<Operation>, op: Operation, c: Contact)
    requires Prepares(op) && Settled(Run(INITIAL, ops), op.contact, c)
    requires var o := OutcomeOf(Run(INITIAL, ops), op); o.Changed? && o.stored
    ensures Settled(Run(INITIAL, ops + [op] + [Commit(op.tid)]), op.contact,
      Perform(OutcomeOf(Run(INITIAL, ops), op).after))
  {
    var w := Run(INITIAL, ops);
    forall tid ensures !Locks(w, tid, op.contact) {
    }
    OneMore(ops, op);
    OneMore(ops + [op], Commit(op.tid));
  }

  lemma Created(tid: TransactionId) returns (ops: seq<Operation>)
    ensures Settled(Run(INITIAL, ops), 0, New(0, 0, ""))
  {
    ops := [];
    assert Run(INITIAL, ops) == INITIAL;
    OneMore(ops, CreatePrepare(tid, "", true));
    ops := ops + [CreatePrepare(tid, "", true)];
    OneMore(ops, Commit(tid));
    ops := ops + [Commit(tid)];
  }

  /** A mojeID contact that was never identified, validated and with its address hidden. */
  ghost predicate OnlyValidated(c: Contact) {
    && MojeId in c.states && Validated in c.states && Identified !in c.states
    && !c.addressDisclosed && c.requested == c.states
  }

  lemma Registered(tid: TransactionId) returns (ops: seq<Operation>, c: Contact)
    ensures Settled(Run(INITIAL, ops), 0, c)
    ensures MojeId in c.states && c.states !! {Identified, Validated} && c.requested == c.states
    ensures c.addressDisclosed && c.organization == ""
  {
    ops := Created(tid);
    c := New(0, 0, "");
    var register := ProcessRegistration(0, RegistrationInput(0, true, true, false));
    assert c.requests[0] == Request(ConditionalIdentification, Opened, 0);
    DirectStep(ops, register, c);
    c := OutcomeOf(Run(INITIAL, ops), register).after;
    ops := ops + [register];
  }

  lemma ValidatedAndLinked(tid: TransactionId) returns (ops: seq<Operation>, c: Contact)
    ensures Settled(Run(INITIAL, ops), 0, c)
    ensures OnlyValidated(c) && Linked in c.states
  {
    ops, c := Registered(tid);
    var validate := MojeIdWorld.ValidateContact(0, true);
    DirectStep(ops, validate, c);
    c := OutcomeOf(Run(INITIAL, ops), validate).after;
    ops := ops + [validate];
    assert OnlyValidated(c);
    var link := RegistryActs(0, {Linked}, {}, false);
    DirectStep(ops, link, c);
    c := OutcomeOf(Run(INITIAL, ops), link).after;
    ops := ops + [link];
  }

  /** Create, register, validate, link to a domain, cancel the account: the address stays hidden, and nothing
      verifies it. */
  lemma CancelLeavesUnverifiedHidden(tid: TransactionId) returns (ops: seq<Operation>)
    ensures var w := Run(INITIAL, ops);
      0 in w.contacts && !AddressGood(w.contacts[0]) && MojeId !in w.contacts[0].states && w.prepared == map[]
  {
    var c;
    ops, c := ValidatedAndLinked(tid);
    var cancel := MojeIdWorld.CancelAccountPrepare(tid, 0);
    assert Validated in c.states * {Validated, Identified, ConditionallyIdentified};
    PreparedAndCommitted(ops, cancel, c);
    ops := ops + [cancel] + [Commit(tid)];
  }
}
