/**
  The server object: its registry, its prepared transactions and the transaction map it shares between calls. Each
  method changes these fields step by step and is proved to take exactly the step MojeIdWorld describes.
 */
module MojeIdServer {
  import opened Options
  import opened MojeIdRequests
  import opened MojeIdContact
  import opened MojeIdInvariants
  import opened MojeIdEffects
  import opened MojeIdWorld
  import opened MojeIdRuns

  /**
    The two loops of send_new_pin3: as long as the library finds an open request of the kind, invalidate it.
    Each turn closes one open request for good, so the loop ends, and in the end all of them are invalidated.
   */
  method InvalidateOpened(rs: Requests, kind: Kind) returns (result: Requests, found: bool)
    requires !kind.InvalidationOnly()
    ensures result == Invalidate(rs, {kind})
    ensures found <==> HasOpen(rs, kind)
  {
    result, found := rs, false;
    while exists id :: id in result && IsOpen(result, id, kind)
      invariant Invalidate(result, {kind}) == Invalidate(rs, {kind})
      invariant if found then HasOpen(rs, kind) else result == rs
      decreases OpenIds(result, kind)
    {
      var id :| id in result && IsOpen(result, id, kind);
      assert !found ==> IsOpen(rs, id, kind);
      CloseOne(result, id, kind);
      result := SetStatus(result, id, Invalidated);
      found := true;
    }
    NothingToInvalidate(result, kind);
  }

  ghost function OpenIds(rs: Requests, kind: Kind): set<nat> {
    set id | id in rs && IsOpen(rs, id, kind)
  }

  lemma CloseOne(rs: Requests, id: nat, kind: Kind)
    requires IsOpen(rs, id, kind) && !kind.InvalidationOnly()
    ensures var after := SetStatus(rs, id, Invalidated);
      Invalidate(after, {kind}) == Invalidate(rs, {kind}) && OpenIds(after, kind) < OpenIds(rs, kind)
  {
    var after := SetStatus(rs, id, Invalidated);
    assert after == rs[id := rs[id].(status := Invalidated)];
    assert id in OpenIds(rs, kind) && id !in OpenIds(after, kind);
  }

  lemma NothingToInvalidate(rs: Requests, kind: Kind)
    requires !exists id :: id in rs && IsOpen(rs, id, kind)
    ensures Invalidate(rs, {kind}) == rs && !HasOpen(rs, kind)
  {
    forall id | id in rs ensures Invalidate(rs, {kind})[id] == rs[id] {
      assert !IsOpen(rs, id, kind);
    }
  }

  method Pin3Outcome(c: Contact, now: nat, id: nat, lettersOk: bool) returns (o: Outcome)
    ensures o == SendPin3(c, now, id, lettersOk)
  {
    if Identified in c.states {
      return Failed(IdentificationAlreadyProcessed);
    }
    if MojeId !in c.states {
      return Failed(ObjectDoesntExist);
    }
    var cleared, _ := InvalidateOpened(c.requests, Identification);
    var again;
    cleared, again := InvalidateOpened(cleared, Reidentification);
    if !lettersOk {
      return Failed(MessageLimitExceeded);
    }
    assert cleared == Invalidate(c.requests, {Identification, Reidentification});
    assert again <==> HasOpen(c.requests, Reidentification) by {
      var middle := Invalidate(c.requests, {Identification});
      assert forall k :: IsOpen(middle, k, Reidentification) <==> IsOpen(c.requests, k, Reidentification);
    }
    var requests := Create(cleared, id, if again then Reidentification else Identification, now);
    o := Changed(c.(requests := requests), false);
  }

  /** GetOpenedPublicRequest, of which there is at most one for each kind. */
  method FindOpened(rs: Requests, kind: Kind) returns (found: Option<nat>)
    requires OneOpenPerKind(rs)
    ensures found == OpenRequest(rs, kind)
  {
    if id :| id in rs && IsOpen(rs, id, kind) {
      found := Some(id);
    } else {
      found := None;
      assert !HasOpen(rs, kind);
    }
  }

  /** The request of either kind is looked up first; the contact never misses what the checks after it ask for. */
  method IdentifyOpened(c: Contact, now: nat, passwordOk: bool) returns (o: Outcome)
    requires Good(c, now)
    ensures o == Identify(c, now, passwordOk) && !Defensive(o) && Keeps(c, now, o)
    ensures o.Changed? ==> Identified in o.after.states
  {
    IdentifyKeeps(c, now, passwordOk);
    var found := FindOpened(c.requests, Identification);
    if found.None? {
      found := FindOpened(c.requests, Reidentification);
    }
    o := IdentifyWith(c, now, passwordOk, found);
  }

  /** The request is looked up first. */
  method RegisterRequested(c: Contact, now: nat, id: nat, i: RegistrationInput) returns (o: Outcome)
    requires Good(c, now) && id !in c.requests
    ensures Registering(c, now, id, i, o) && !o.Deleted?
    ensures o == if i.request in c.requests then Register(c, now, id, i) else Failed(IdentificationRequestDoesntExist)
  {
    if i.request !in c.requests {
      return Failed(IdentificationRequestDoesntExist);
    }
    RegisterEffect(c, now, id, i);
    o := Register(c, now, id, i);
  }

  class Server {
    var contacts: map<ContactId, Contact>
    var prepared: map<TransactionId, Prepared>
    var storage: map<TransactionId, ContactId>
    var clock: nat
    var nextContact: ContactId
    var nextRequest: nat

    constructor ()
      ensures Snapshot() == INITIAL && Valid()
    {
      contacts, prepared, storage, clock, nextContact, nextRequest := map[], map[], map[], 0, 0, 0;
    }

    function Snapshot(): World
      reads this
    {
      World(contacts, prepared, storage, clock, nextContact, nextRequest)
    }

    ghost predicate Valid()
      reads this
    {
      Inv(Snapshot())
    }

    /** Whether some prepared transaction holds the contact. */
    predicate IsLocked(id: ContactId)
      reads this
      ensures IsLocked(id) <==> Locked(Snapshot(), id)
    {
      exists tid | tid in prepared :: Locks(Snapshot(), tid, id)
    }

    /** The contact is there, and no prepared transaction holds it. */
    ghost predicate AtHand(id: ContactId)
      reads this
    {
      id in contacts && !Locked(Snapshot(), id)
    }

    method Advance()
      modifies this
      ensures Snapshot() == Tick(old(Snapshot()))
    {
      clock, nextRequest := clock + 1, nextRequest + 1;
    }

    /** PREPARE TRANSACTION, which refuses an identifier in use. */
    method PrepareTransaction(tid: TransactionId, p: Prepared)
      modifies this
      ensures Snapshot() == MojeIdWorld.PrepareTransaction(old(Snapshot()), tid, p)
    {
      if tid !in prepared {
        prepared := prepared[tid := p];
      }
    }

    /** How every *_prepare ends: the contact is remembered if its states will change, which a used identifier refuses,
        and only then is the transaction prepared. */
    method FinishPrepare(tid: TransactionId, id: ContactId, o: Outcome)
      modifies this
      ensures Snapshot() == Prepare(old(Snapshot()), tid, id, o)
      ensures StorageGood(old(Snapshot())) ==> TakesHold(old(Snapshot()), Snapshot(), tid, id, o)
    {
      if StorageGood(Snapshot()) {
        PrepareTakesHold(Snapshot(), tid, id, o);
      }
      var before := Lookup(contacts, id);
      match o {
        case Changed(after, stored) =>
          var refused := stored && tid in storage;
          if stored && !refused {
            storage := storage[tid := id];
          }
          if !refused {
            PrepareTransaction(tid, Locking(id, before, Some(after)));
          }
        case Deleted => PrepareTransaction(tid, Locking(id, before, None));
        case Nothing => PrepareTransaction(tid, Empty);
        case _ =>
      }
      Advance();
    }

    method FinishAtOnce(id: ContactId, o: Outcome)
      requires !o.Deleted?
      modifies this
      ensures Snapshot() == Apply(old(Snapshot()), id, o)
    {
      if o.Changed? || o.FailedAfter? {
        contacts := contacts[id := o.after];
      }
      Advance();
    }

    method CommitPreparedTransaction(tid: TransactionId) returns (failed: bool)
      requires Valid()
      modifies this
      ensures Valid() && Snapshot() == CommitPrepared(old(Snapshot()), tid)
      ensures failed <==> tid !in old(prepared)
      ensures tid !in prepared && tid !in storage
    {
      CommitKeeps(Snapshot(), tid);
      failed := tid !in prepared;
      if !failed {
        InstallAndPerform(tid);
      }
      Advance();
    }

    /** The prepared change becomes visible, then the state requests of the contact the map remembers are performed. For
        the contact the transaction was about there is nothing left to perform afterwards. */
    method InstallAndPerform(tid: TransactionId)
      requires Valid() && tid in prepared
      modifies this
      ensures clock == old(clock) && nextContact == old(nextContact) && nextRequest == old(nextRequest)
      ensures prepared == old(prepared) - {tid} && storage == old(storage) - {tid}
      ensures contacts == CommitPrepared(old(Snapshot()), tid).contacts
      ensures match old(prepared)[tid]
        case Empty => contacts == old(contacts)
        case Locking(id, _, None) => contacts == old(contacts) - {id}
        case Locking(id, _, Some(after)) => contacts == old(contacts)[id := Perform(after)]
    {
      CommitInstalls(Snapshot(), tid);
      contacts := Install(contacts, prepared[tid]);
      prepared := prepared - {tid};
      if tid in storage && storage[tid] in contacts {
        contacts := contacts[storage[tid] := Perform(contacts[storage[tid]])];
      }
      storage := storage - {tid};
    }

    method RollbackPreparedTransaction(tid: TransactionId) returns (failed: bool)
      requires Valid()
      modifies this
      ensures Valid() && Snapshot() == RollbackPrepared(old(Snapshot()), tid)
      ensures contacts == old(contacts) && tid !in prepared && tid !in storage
    {
      RollbackKeeps(Snapshot(), tid);
      failed := tid !in prepared;
      if !failed {
        prepared, storage := prepared - {tid}, storage - {tid};
      }
      Advance();
    }

    /** create_contact_prepare: the new contact is in the registry only after the commit. */
    method CreateContactPrepare(tid: TransactionId, organization: string, dataOk: bool)
      requires Valid()
      modifies this
      ensures Valid() && Snapshot() == Step(old(Snapshot()), CreatePrepare(tid, organization, dataOk))
      ensures dataOk && tid !in old(prepared) ==>
        && storage == old(storage)[tid := old(nextContact)]
        && prepared == old(prepared)[tid :=
             Locking(old(nextContact), None, Some(New(old(clock), old(nextRequest), organization)))]
      ensures contacts == old(contacts)
    {
      StepKeeps(Snapshot(), CreatePrepare(tid, organization, dataOk));
      if !dataOk {
        Advance();
        return;
      }
      var id := nextContact;
      FinishPrepare(tid, id, Changed(New(clock, nextRequest, organization), true));
      nextContact := nextContact + 1;
    }

    /** transfer_contact_prepare: which request is opened, and when none is. */
    method TransferContactPrepare(tid: TransactionId, id: ContactId, dataOk: bool) returns (o: Outcome)
      requires Valid()
      modifies this
      ensures Valid() && Snapshot() == Step(old(Snapshot()), TransferPrepare(tid, id, dataOk))
      ensures TakesHold(old(Snapshot()), Snapshot(), tid, id, o)
      ensures old(AtHand(id)) ==> Transfers(contacts[id], old(clock), old(nextRequest), dataOk, o)
      ensures !old(AtHand(id)) ==> o == Failed(ObjectDoesntExist)
    {
      StepKeeps(Snapshot(), TransferPrepare(tid, id, dataOk));
      if id !in contacts || IsLocked(id) {
        o := Failed(ObjectDoesntExist);
        Advance();
        return;
      }
      TransferEffect(contacts[id], clock, nextRequest, dataOk);
      o := Transfer(contacts[id], clock, nextRequest, dataOk);
      FinishPrepare(tid, id, o);
    }

    /** update_contact_prepare: which states go and which request is opened. */
    method UpdateContactPrepare(tid: TransactionId, id: ContactId, i: UpdateInput) returns (o: Outcome)
      requires Valid()
      modifies this
      ensures Valid() && Snapshot() == Step(old(Snapshot()), UpdatePrepare(tid, id, i))
      ensures TakesHold(old(Snapshot()), Snapshot(), tid, id, o)
      ensures old(AtHand(id)) ==> Updates(contacts[id], old(clock), old(nextRequest), i, o)
      ensures !old(AtHand(id)) ==> o == Failed(ObjectDoesntExist)
    {
      StepKeeps(Snapshot(), UpdatePrepare(tid, id, i));
      if id !in contacts || IsLocked(id) {
        o := Failed(ObjectDoesntExist);
        Advance();
        return;
      }
      UpdateEffect(contacts[id], clock, nextRequest, i);
      o := Update(contacts[id], clock, nextRequest, i);
      FinishPrepare(tid, id, o);
    }

    /** update_transfer_contact_prepare: which states go and which request is opened. */
    method UpdateTransferContactPrepare(tid: TransactionId, id: ContactId, i: TransferInput) returns (o: Outcome)
      requires Valid()
      modifies this
      ensures Valid() && Snapshot() == Step(old(Snapshot()), UpdateTransferPrepare(tid, id, i))
      ensures TakesHold(old(Snapshot()), Snapshot(), tid, id, o)
      ensures old(AtHand(id)) ==> UpdatesAndTransfers(contacts[id], old(clock), old(nextRequest), i, o)
      ensures !old(AtHand(id)) ==> o == Failed(ObjectDoesntExist)
    {
      StepKeeps(Snapshot(), UpdateTransferPrepare(tid, id, i));
      if id !in contacts || IsLocked(id) {
        o := Failed(ObjectDoesntExist);
        Advance();
        return;
      }
      UpdateTransferEffect(contacts[id], clock, nextRequest, i);
      o := UpdateTransfer(contacts[id], clock, nextRequest, i);
      FinishPrepare(tid, id, o);
    }

    /** cancel_account_prepare: what mojeID set for itself is dropped; a contact without domains goes altogether. */
    method CancelAccountPrepare(tid: TransactionId, id: ContactId) returns (o: Outcome)
      requires Valid()
      modifies this
      ensures Valid() && Snapshot() == Step(old(Snapshot()), MojeIdWorld.CancelAccountPrepare(tid, id))
      ensures TakesHold(old(Snapshot()), Snapshot(), tid, id, o)
      ensures old(AtHand(id)) ==> Cancels(contacts[id], old(clock), o)
      ensures !old(AtHand(id)) ==> o == Failed(ObjectDoesntExist)
    {
      StepKeeps(Snapshot(), MojeIdWorld.CancelAccountPrepare(tid, id));
      if id !in contacts || IsLocked(id) {
        o := Failed(ObjectDoesntExist);
        Advance();
        return;
      }
      CancelAccountEffect(contacts[id], clock);
      o := CancelAccount(contacts[id], clock);
      FinishPrepare(tid, id, o);
    }

    /** process_registration_request: succeeds exactly with the password of a request that still counts. */
    method ProcessRegistrationRequest(id: ContactId, i: RegistrationInput) returns (o: Outcome)
      requires Valid()
      modifies this
      ensures Valid() && Snapshot() == Step(old(Snapshot()), ProcessRegistration(id, i))
      ensures contacts == if o.Changed? || o.FailedAfter? then old(contacts)[id := o.after] else old(contacts)
      ensures old(AtHand(id)) ==> Registering(old(contacts)[id], old(clock), old(nextRequest), i, o)
      ensures !old(AtHand(id)) ==> o == Failed(ObjectDoesntExist)
    {
      StepKeeps(Snapshot(), ProcessRegistration(id, i));
      if id !in contacts || IsLocked(id) {
        o := Failed(ObjectDoesntExist);
        Advance();
        return;
      }
      o := RegisterRequested(contacts[id], clock, nextRequest, i);
      FinishAtOnce(id, o);
    }

    /** process_identification_request: succeeds exactly with the password of an opened request. */
    method ProcessIdentificationRequest(id: ContactId, passwordOk: bool) returns (o: Outcome)
      requires Valid()
      modifies this
      ensures Valid() && Snapshot() == Step(old(Snapshot()), ProcessIdentification(id, passwordOk))
      ensures contacts == if o.Changed? || o.FailedAfter? then old(contacts)[id := o.after] else old(contacts)
      ensures old(AtHand(id)) ==> Identifies(old(contacts)[id], old(clock), passwordOk, o)
      ensures !old(AtHand(id)) ==> o == Failed(ObjectDoesntExist)
    {
      StepKeeps(Snapshot(), ProcessIdentification(id, passwordOk));
      if id !in contacts || IsLocked(id) {
        o := Failed(ObjectDoesntExist);
        Advance();
        return;
      }
      IdentifyEffect(contacts[id], clock, passwordOk);
      o := IdentifyOpened(contacts[id], clock, passwordOk);
      FinishAtOnce(id, o);
    }

    /** validate_contact: the contact is validated and no validation request is left opened. */
    method ValidateContact(id: ContactId, dataOk: bool) returns (o: Outcome)
      requires Valid()
      modifies this
      ensures Valid() && Snapshot() == Step(old(Snapshot()), MojeIdWorld.ValidateContact(id, dataOk))
      ensures contacts == if o.Changed? || o.FailedAfter? then old(contacts)[id := o.after] else old(contacts)
      ensures old(AtHand(id)) ==> Validates(old(contacts)[id], old(clock), old(nextRequest), dataOk, o)
      ensures !old(AtHand(id)) ==> o == Failed(ObjectDoesntExist)
    {
      StepKeeps(Snapshot(), MojeIdWorld.ValidateContact(id, dataOk));
      if id !in contacts || IsLocked(id) {
        o := Failed(ObjectDoesntExist);
        Advance();
        return;
      }
      ValidateEffect(contacts[id], clock, nextRequest, dataOk);
      o := Validate(contacts[id], clock, nextRequest, dataOk);
      FinishAtOnce(id, o);
    }

    /** send_new_pin3: of both kinds of identification request only the new one is opened. */
    method SendNewPin3(id: ContactId, lettersOk: bool) returns (o: Outcome)
      requires Valid()
      modifies this
      ensures Valid() && Snapshot() == Step(old(Snapshot()), MojeIdWorld.SendNewPin3(id, lettersOk))
      ensures contacts == if o.Changed? || o.FailedAfter? then old(contacts)[id := o.after] else old(contacts)
      ensures old(AtHand(id)) ==> SendsNewPin3(old(contacts)[id], old(clock), old(nextRequest), lettersOk, o)
      ensures !old(AtHand(id)) ==> o == Failed(ObjectDoesntExist)
    {
      StepKeeps(Snapshot(), MojeIdWorld.SendNewPin3(id, lettersOk));
      if id !in contacts || IsLocked(id) {
        o := Failed(ObjectDoesntExist);
        Advance();
        return;
      }
      SendPin3Effect(contacts[id], clock, nextRequest, lettersOk);
      o := Pin3Outcome(contacts[id], clock, nextRequest, lettersOk);
      FinishAtOnce(id, o);
    }
  }
}
