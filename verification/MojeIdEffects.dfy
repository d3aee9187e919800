/**
  What every operation needs to succeed and what exactly it leaves behind, told state by state and request by request.
  The predicates here are specifications of their own: they do not mention the operations, which are proved to meet
  them.
 */
module MojeIdEffects {
  import opened Options
  import opened Strings
  import opened MojeIdRequests
  import opened MojeIdContact
  import opened MojeIdInvariants

  // ---- requests ----

  /** An opened request gives way to a newer one of its own kind, or to one that makes it pointless. */
  predicate Replaces(newer: Kind, older: Kind) {
    || newer == older
    || (newer == Identification && older == PlainIdentification)
    || (newer == PrevalidatedUnidentifiedTransfer && older == PlainConditionalIdentification)
    || (newer == PrevalidatedUnidentifiedTransfer && older == ConditionalIdentification)
    || (newer == PrevalidatedTransfer && older == ConditionallyIdentifiedTransfer)
    || (newer == PrevalidatedTransfer && older == IdentifiedTransfer)
  }

  /** Answering a request makes some opened ones of other kinds pointless. */
  predicate Outdates(answered: Kind, other: Kind) {
    || (answered == ConditionalIdentification && other == PlainConditionalIdentification)
    || (answered == ConditionallyIdentifiedTransfer && other == PlainIdentification)
    || (answered == ConditionallyIdentifiedTransfer && other == PrevalidatedTransfer)
  }

  /** A request after others have been opened or answered: as it was, or invalidated. */
  predicate Unless(before: Request, after: Request, pointless: bool) {
    after == if before.status == Opened && pointless then before.(status := Invalidated) else before
  }

  ghost predicate OnlyOpens(rs: Requests, after: Requests, id: nat, kind: Kind, now: nat) {
    && after.Keys == rs.Keys + {id}
    && after[id] == Request(kind, Opened, now)
    && forall k :: k in rs && k != id ==> Unless(rs[k], after[k], Replaces(kind, rs[k].kind))
  }

  ghost predicate OnlyAnswers(rs: Requests, after: Requests, id: nat) {
    && id in rs && after.Keys == rs.Keys
    && after[id] == rs[id].(status := Resolved)
    && forall k :: k in rs && k != id ==> Unless(rs[k], after[k], Outdates(rs[id].kind, rs[k].kind))
  }

  ghost predicate OnlyInvalidates(rs: Requests, after: Requests, kind: Kind) {
    after.Keys == rs.Keys && forall k :: k in rs ==> Unless(rs[k], after[k], rs[k].kind == kind)
  }

  lemma CreateOpens(rs: Requests, id: nat, kind: Kind, now: nat)
    requires !kind.InvalidationOnly()
    ensures OnlyOpens(rs, Create(rs, id, kind, now), id, kind, now)
  {
    forall other: Kind ensures other in CancelledOnCreate(kind) <==> Replaces(kind, other) {
    }
  }

  lemma AnswerCloses(rs: Requests, id: nat)
    requires id in rs && rs[id].status == Opened && !rs[id].kind.InvalidationOnly()
    ensures OnlyAnswers(rs, SetStatus(rs, id, Resolved), id)
  {
    var kind := rs[id].kind;
    forall other: Kind ensures other in CancelledOnUpdate(kind, Opened, Resolved) <==> Outdates(kind, other) {
    }
  }

  lemma InvalidationCloses(rs: Requests, id: nat)
    requires id in rs && rs[id].status == Opened && !rs[id].kind.InvalidationOnly()
    ensures SetStatus(rs, id, Invalidated) == rs[id := rs[id].(status := Invalidated)]
  {
  }

  // ---- shared vocabulary ----

  /** Nothing but what the operation is about differs. */
  predicate OnlyRequestsDiffer(c: Contact, after: Contact) {
    after == c.(requests := after.requests)
  }

  predicate SameOwnership(c: Contact, after: Contact) {
    after.sponsoredByMojeId == c.sponsoredByMojeId && after.identityAttached == c.identityAttached
  }

  /** An address may be hidden that belongs to an identified or validated person. */
  predicate MayBeHidden(states: set<State>, organization: string) {
    (Identified in states || Validated in states) && organization == ""
  }

  /** The address of a contact that has just been verified is hidden, and that is a change of the contact. */
  predicate HidesPersonal(c: Contact, after: Contact, now: nat) {
    && after.organization == c.organization
    && (after.addressDisclosed <==> c.addressDisclosed && c.organization != "")
    && after.changed == if c.addressDisclosed && c.organization == "" then now else c.changed
  }

  predicate TransferFree(c: Contact) {
    !c.identityAttached && c.states !! {MojeId, ServerBlocked} + PROHIBITIONS
  }

  /** Each error stands for what was found. */
  predicate TransferError(c: Contact, e: Error) {
    || (e == IdentityAttached && c.identityAttached)
    || (e == AlreadyMojeidContact && MojeId in c.states)
    || (e == ObjectAdminBlocked && ServerBlocked in c.states)
    || (e == ObjectUserBlocked && !(c.states !! PROHIBITIONS))
  }

  // ---- transfer_contact_prepare ----

  /** Which of the three requests a contact gets says how far it has been verified. */
  ghost predicate Transfers(c: Contact, now: nat, id: nat, dataOk: bool, o: Outcome) {
    && (o.Changed? <==> TransferFree(c) && dataOk)
    && (o.Changed? ==>
          && o.stored && OnlyRequestsDiffer(c, o.after)
          && OnlyOpens(c.requests, o.after.requests, id,
               if Identified in c.states then IdentifiedTransfer
               else if ConditionallyIdentified in c.states then ConditionallyIdentifiedTransfer
               else ConditionalIdentification, now))
    && (!o.Changed? ==> o.Failed? && (TransferError(c, o.error) || (o.error == InvalidData && !dataOk)))
  }

  lemma TransferEffect(c: Contact, now: nat, id: nat, dataOk: bool)
    requires Good(c, now)
    ensures Transfers(c, now, id, dataOk, Transfer(c, now, id, dataOk))
  {
    var kind :=
      if Identified in c.states then IdentifiedTransfer
      else if ConditionallyIdentified in c.states then ConditionallyIdentifiedTransfer
      else ConditionalIdentification;
    CreateOpens(c.requests, id, kind, now);
  }

  // ---- update_contact_prepare ----

  /** A state is kept unless the data it vouches for have changed. */
  predicate KeptByUpdate(s: State, i: UpdateInput) {
    match s
    case Validated => !i.validatedDataChanged
    case Identified => !i.identifiedDataChanged
    case FailedManualVerification => !i.verifiedDataChanged
    case PassedManualVerification => !i.verifiedDataChanged
    case _ => true
  }

  predicate SendsPin3(i: UpdateInput) {
    i.identifiedDataChanged && i.autoPin3
  }

  ghost predicate Updates(c: Contact, now: nat, id: nat, i: UpdateInput, o: Outcome) {
    && (o.Nothing? <==> MojeId in c.states && !i.anyChange)
    && (o.Changed? <==> MojeId in c.states && i.anyChange && i.dataOk && (SendsPin3(i) ==> i.lettersOk))
    && (o.Changed? ==> UpdatedTo(c, now, i, o.after, o.stored) && UpdateOpens(c, now, id, i, o.after.requests))
    && (o.Failed? ==>
          || (o.error == ObjectDoesntExist && MojeId !in c.states)
          || (o.error == MessageLimitExceeded && SendsPin3(i) && !i.lettersOk)
          || (o.error == InvalidData && !i.dataOk))
    && (o.Nothing? || o.Changed? || o.Failed?)
  }

  ghost predicate UpdatedTo(c: Contact, now: nat, i: UpdateInput, after: Contact, stored: bool) {
    && (forall s :: s in after.requested <==> s in c.states && KeptByUpdate(s, i))
    && (stored <==> exists s :: s in c.states && !KeptByUpdate(s, i))
    && after.states == c.states && SameOwnership(c, after)
    && after.organization == i.organization && after.changed == now
    && (after.addressDisclosed <==> c.addressDisclosed || !MayBeHidden(after.requested, i.organization))
  }

  /** Changed identification data ask for an identification, again if there was one before. */
  ghost predicate UpdateOpens(c: Contact, now: nat, id: nat, i: UpdateInput, after: Requests) {
    if SendsPin3(i) then
      var again := Identified in c.states || i.identifiedBefore;
      OnlyOpens(c.requests, after, id, if again then Reidentification else Identification, now)
    else after == c.requests
  }

  lemma UpdateEffect(c: Contact, now: nat, id: nat, i: UpdateInput)
    requires Good(c, now)
    ensures Updates(c, now, id, i, Update(c, now, id, i))
  {
    var o := Update(c, now, id, i);
    if o.Changed? {
      UpdateStates(c, now, id, i);
      var again := Identified in c.states || i.identifiedBefore;
      CreateOpens(c.requests, id, if again then Reidentification else Identification, now);
    }
  }

  lemma UpdateStates(c: Contact, now: nat, id: nat, i: UpdateInput)
    requires Good(c, now) && Update(c, now, id, i).Changed?
    ensures var o := Update(c, now, id, i); UpdatedTo(c, now, i, o.after, o.stored)
  {
    var o := Update(c, now, id, i);
    var dropped := UpdateCancels(c.states, i);
    forall s ensures s in dropped <==> s in c.states && !KeptByUpdate(s, i) {
    }
    if s :| s in c.states && !KeptByUpdate(s, i) {
      assert s in dropped;
    } else {
      assert dropped == {};
    }
  }

  // ---- update_validated_contact_prepare ----

  ghost predicate UpdatesValidated(c: Contact, now: nat, dataOk: bool, o: Outcome) {
    && (o.Changed? <==> MojeId in c.states && dataOk)
    && (o.Changed? ==>
          && (forall s :: s in o.after.requested <==> s in c.states && s !in MANUAL_VERIFICATION)
          && (o.stored <==> !(c.states !! MANUAL_VERIFICATION))
          && o.after == c.(requested := o.after.requested, changed := now))
    && (!o.Changed? ==>
          || (o == Failed(ObjectDoesntExist) && MojeId !in c.states)
          || (o == Failed(InvalidData) && !dataOk))
  }

  lemma UpdateValidatedEffect(c: Contact, now: nat, dataOk: bool)
    requires Good(c, now)
    ensures UpdatesValidated(c, now, dataOk, UpdateValidated(c, now, dataOk))
  {
  }

  // ---- update_transfer_contact_prepare ----

  /** Changed contact data cost what rests on them; identification rests on both kinds. */
  predicate KeptByTransfer(s: State, i: TransferInput) {
    match s
    case ConditionallyIdentified => !i.phoneOrEmailChanged
    case Identified => !i.phoneOrEmailChanged && !i.nameOrMailingChanged
    case Validated => !i.validatedDataChanged
    case _ => true
  }

  ghost predicate UpdatesAndTransfers(c: Contact, now: nat, id: nat, i: TransferInput, o: Outcome) {
    && (o.Changed? <==> TransferFree(c) && i.lettersOk && i.dataOk)
    && (o.Changed? ==>
          && o.stored && o.after.states == c.states
          && (forall s :: s in o.after.requested <==> s in c.states && KeptByTransfer(s, i))
          && OnlyOpens(c.requests, o.after.requests, id,
               if ConditionallyIdentified in o.after.requested then PrevalidatedTransfer
               else PrevalidatedUnidentifiedTransfer, now)
          && o.after.organization == i.organization && o.after.changed == now
          && o.after.sponsoredByMojeId && !o.after.identityAttached
          && (o.after.addressDisclosed <==>
                c.addressDisclosed || !MayBeHidden(o.after.requested, i.organization)))
    && (!o.Changed? ==>
          && o.Failed?
          && (TransferError(c, o.error) || (o.error == MessageLimitExceeded && !i.lettersOk)
              || (o.error == InvalidData && !i.dataOk)))
  }

  lemma UpdateTransferEffect(c: Contact, now: nat, id: nat, i: TransferInput)
    requires Good(c, now)
    ensures UpdatesAndTransfers(c, now, id, i, UpdateTransfer(c, now, id, i))
  {
    var o := UpdateTransfer(c, now, id, i);
    if o.Changed? {
      forall s ensures s in o.after.requested <==> s in c.states && KeptByTransfer(s, i) {
      }
      CreateOpens(c.requests, id, PrevalidatedTransfer, now);
      CreateOpens(c.requests, id, PrevalidatedUnidentifiedTransfer, now);
    }
  }

  // ---- process_registration_request ----

  /** What is needed to register: an opened request of one of the five types, no older than the contact, its password
      and acceptable data. */
  predicate CanRegister(c: Contact, i: RegistrationInput) {
    && !c.identityAttached && i.request in c.requests
    && c.requests[i.request].status == Opened && KnownToRegistration(c.requests[i.request].kind)
    && c.changed <= c.requests[i.request].created
    && i.passwordOk && i.dataOk
  }

  predicate KnownToRegistration(kind: Kind) {
    || kind == ConditionalIdentification || kind == ConditionallyIdentifiedTransfer || kind == IdentifiedTransfer
    || kind == PrevalidatedUnidentifiedTransfer || kind == PrevalidatedTransfer
  }

  /** The states a registration adds, by the type of its request. */
  predicate GainedByRegistration(s: State, kind: Kind) {
    match s
    case MojeId => true
    case ServerDeleteProhibited => true
    case ServerTransferProhibited => true
    case ServerUpdateProhibited => true
    case ConditionallyIdentified => kind == ConditionalIdentification || kind == PrevalidatedUnidentifiedTransfer
    case Validated => kind == PrevalidatedTransfer || kind == PrevalidatedUnidentifiedTransfer
    case _ => false
  }

  ghost predicate Registering(c: Contact, now: nat, id: nat, i: RegistrationInput, o: Outcome) {
    && (o.Changed? <==> CanRegister(c, i))
    && (o.Changed? ==> !o.stored && RegisteredTo(c, now, i, o.after) && RegistrationAnswers(c, now, id, i, o.after))
    && (o.FailedAfter? <==>
          && !c.identityAttached && i.request in c.requests
          && c.requests[i.request].status == Opened && KnownToRegistration(c.requests[i.request].kind)
          && c.requests[i.request].created < c.changed)
    && (o.FailedAfter? ==>
          && o.error == ContactChanged
          && o.after == c.(requests := c.requests[i.request := c.requests[i.request].(status := Invalidated)]))
    && (o.Failed? ==> RegistrationError(c, i, o.error))
    && (o.Changed? || o.FailedAfter? || o.Failed?)
  }

  predicate RegistrationError(c: Contact, i: RegistrationInput, e: Error) {
    match e
    case IdentificationRequestDoesntExist => i.request !in c.requests
    case IdentityAttached => c.identityAttached
    case UnexpectedRequestType => i.request in c.requests && !KnownToRegistration(c.requests[i.request].kind)
    case IdentificationAlreadyProcessed => i.request in c.requests && c.requests[i.request].status == Resolved
    case IdentificationAlreadyInvalidated => i.request in c.requests && c.requests[i.request].status == Invalidated
    case IdentificationFailed => !i.passwordOk
    case InvalidData => !i.dataOk
    case _ => false
  }

  ghost predicate RegisteredTo(c: Contact, now: nat, i: RegistrationInput, after: Contact)
    requires i.request in c.requests
  {
    var kind := c.requests[i.request].kind;
    var hides := GainedByRegistration(Validated, kind) && Validated !in c.states && c.organization == "";
    && (forall s :: s in after.states <==> s in c.states || GainedByRegistration(s, kind))
    && after.requested == after.states
    && after.organization == c.organization && after.sponsoredByMojeId && !after.identityAttached
    && (after.addressDisclosed <==> c.addressDisclosed && !hides)
    && after.changed == if (hides && c.addressDisclosed) || !c.sponsoredByMojeId then now else c.changed
  }

  /** The request is resolved; an identification is asked for unless there has been one. */
  ghost predicate RegistrationAnswers(c: Contact, now: nat, id: nat, i: RegistrationInput, after: Contact)
    requires i.request in c.requests
  {
    var pin3 := i.autoPin3 && Identified !in c.states;
    var kind := c.requests[i.request].kind;
    && after.requests.Keys == c.requests.Keys + (if pin3 then {id} else {})
    && after.requests[i.request] == c.requests[i.request].(status := Resolved)
    && (pin3 ==> after.requests[id] == Request(Identification, Opened, now))
    && forall k :: k in c.requests && k != i.request ==>
         Unless(c.requests[k], after.requests[k],
           Outdates(kind, c.requests[k].kind) || (pin3 && Replaces(Identification, c.requests[k].kind)))
  }

  lemma RegisterEffect(c: Contact, now: nat, id: nat, i: RegistrationInput)
    requires Good(c, now) && id !in c.requests && i.request in c.requests
    ensures Registering(c, now, id, i, Register(c, now, id, i))
  {
    var o := Register(c, now, id, i);
    forall kind ensures KnownToRegistration(kind) <==> Registers(kind) {
    }
    if o.Changed? {
      RegisterForm(c, now, id, i);
      RegisterStates(c, now, id, i);
      RegisterRequests(c, now, id, i);
    } else if o.FailedAfter? {
      InvalidationCloses(c.requests, i.request);
    }
  }

  lemma RegisterStates(c: Contact, now: nat, id: nat, i: RegistrationInput)
    requires Good(c, now) && i.request in c.requests && Register(c, now, id, i).Changed?
    ensures RegisteredTo(c, now, i, Register(c, now, id, i).after)
  {
    RegisterForm(c, now, id, i);
    var kind := c.requests[i.request].kind;
    var added := RegistrationStates(kind, c.states);
    forall s ensures s in c.states + added <==> s in c.states || GainedByRegistration(s, kind) {
    }
    assert Validated in added <==> GainedByRegistration(Validated, kind) && Validated !in c.states;
  }

  lemma RegisterRequests(c: Contact, now: nat, id: nat, i: RegistrationInput)
    requires Good(c, now) && id !in c.requests && i.request in c.requests && Register(c, now, id, i).Changed?
    ensures RegistrationAnswers(c, now, id, i, Register(c, now, id, i).after)
  {
    RegisterForm(c, now, id, i);
    var kind := c.requests[i.request].kind;
    assert Identified in c.states <==> Identified in c.states + RegistrationStates(kind, c.states);
    AnsweredThenOpened(c.requests, i.request, now, id, i.autoPin3 && Identified !in c.states);
  }

  lemma AnsweredThenOpened(rs: Requests, request: nat, now: nat, id: nat, pin3: bool)
    requires request in rs && id !in rs && rs[request].status == Opened && Registers(rs[request].kind)
    ensures var after := RegisteredRequests(rs, request, now, id, pin3);
      && after.Keys == rs.Keys + (if pin3 then {id} else {})
      && after[request] == rs[request].(status := Resolved)
      && (pin3 ==> after[id] == Request(Identification, Opened, now))
      && forall k :: k in rs && k != request ==>
           Unless(rs[k], after[k],
             Outdates(rs[request].kind, rs[k].kind) || (pin3 && Replaces(Identification, rs[k].kind)))
  {
    AnswerCloses(rs, request);
    if pin3 {
      CreateOpens(SetStatus(rs, request, Resolved), id, Identification, now);
    }
  }

  // ---- process_identification_request ----

  /** The kind of request an identification answers: a first identification before a repeated one. */
  ghost function IdentificationKind(rs: Requests): Kind {
    if HasOpen(rs, Identification) then Identification else Reidentification
  }

  ghost predicate Identifies(c: Contact, now: nat, passwordOk: bool, o: Outcome) {
    && (o.Changed? <==>
          && MojeId in c.states && Identified !in c.states && ServerBlocked !in c.states
          && HasOpen(c.requests, IdentificationKind(c.requests)) && passwordOk)
    && (o.Changed? ==>
          && !o.stored && SameOwnership(c, o.after) && HidesPersonal(c, o.after, now)
          && o.after.requested == o.after.states == c.states + {Identified}
          && o.after.requests.Keys == c.requests.Keys
          && forall k :: k in c.requests ==>
               o.after.requests[k] ==
                 if IsOpen(c.requests, k, IdentificationKind(c.requests)) then c.requests[k].(status := Resolved)
                 else c.requests[k])
    && (!o.Changed? ==> o.Failed? && IdentificationError(c, passwordOk, o.error))
  }

  ghost predicate IdentificationError(c: Contact, passwordOk: bool, e: Error) {
    match e
    case IdentificationRequestDoesntExist =>
      !HasOpen(c.requests, Identification) && !HasOpen(c.requests, Reidentification)
    case ObjectDoesntExist => MojeId !in c.states
    case IdentificationAlreadyProcessed => Identified in c.states
    case ObjectAdminBlocked => ServerBlocked in c.states
    case IdentificationFailed => !passwordOk
    case _ => false
  }

  lemma IdentifyEffect(c: Contact, now: nat, passwordOk: bool)
    requires Good(c, now)
    ensures Identifies(c, now, passwordOk, Identify(c, now, passwordOk))
  {
    IdentifyKeeps(c, now, passwordOk);
    var first := OpenRequest(c.requests, Identification);
    var found := if first.Some? then first else OpenRequest(c.requests, Reidentification);
    if found.Some? {
      OnlyOneAnswered(c.requests, found.value, IdentificationKind(c.requests));
    }
  }

  lemma OnlyOneAnswered(rs: Requests, id: nat, kind: Kind)
    requires OneOpenPerKind(rs) && IsOpen(rs, id, kind) && (kind == Identification || kind == Reidentification)
    ensures SetStatus(rs, id, Resolved).Keys == rs.Keys
    ensures forall k :: k in rs ==>
      SetStatus(rs, id, Resolved)[k] == if IsOpen(rs, k, kind) then rs[k].(status := Resolved) else rs[k]
  {
    AnswerCloses(rs, id);
  }

  // ---- validation ----

  ghost predicate AsksForValidation(c: Contact, now: nat, id: nat, dataOk: bool, o: Outcome) {
    && (o.Changed? <==>
          MojeId in c.states && Validated !in c.states && !HasOpen(c.requests, Validation) && dataOk)
    && (o.Changed? ==>
          !o.stored && OnlyRequestsDiffer(c, o.after) && OnlyOpens(c.requests, o.after.requests, id, Validation, now))
    && (!o.Changed? ==>
          || (o == Failed(ValidationRequestExists) && HasOpen(c.requests, Validation))
          || (o == Failed(ValidationAlreadyProcessed) && Validated in c.states)
          || (o == Failed(ObjectDoesntExist) && MojeId !in c.states)
          || (o == Failed(InvalidData) && !dataOk))
  }

  lemma RequestValidationEffect(c: Contact, now: nat, id: nat, dataOk: bool)
    requires Good(c, now)
    ensures AsksForValidation(c, now, id, dataOk, RequestValidation(c, now, id, dataOk))
  {
    CreateOpens(c.requests, id, Validation, now);
  }

  ghost predicate Validates(c: Contact, now: nat, id: nat, dataOk: bool, o: Outcome) {
    && (o.Changed? <==> MojeId in c.states && Validated !in c.states && dataOk)
    && (o.Changed? ==>
          && !o.stored && SameOwnership(c, o.after) && HidesPersonal(c, o.after, now)
          && o.after.requested == o.after.states == c.states + {Validated}
          && o.after.requests.Keys == c.requests.Keys + {id}
          && o.after.requests[id] == Request(Validation, Resolved, now)
          && forall k :: k in c.requests && k != id ==>
               Unless(c.requests[k], o.after.requests[k], c.requests[k].kind == Validation))
    && (!o.Changed? ==>
          || (o == Failed(ValidationAlreadyProcessed) && Validated in c.states)
          || (o == Failed(ObjectDoesntExist) && MojeId !in c.states)
          || (o == Failed(InvalidData) && !dataOk))
  }

  lemma ValidateEffect(c: Contact, now: nat, id: nat, dataOk: bool)
    requires Good(c, now)
    ensures Validates(c, now, id, dataOk, Validate(c, now, id, dataOk))
  {
    OpenedThenAnswered(c.requests, id, now);
  }

  lemma OpenedThenAnswered(rs: Requests, id: nat, now: nat)
    ensures var after := SetStatus(Create(rs, id, Validation, now), id, Resolved);
      && after.Keys == rs.Keys + {id}
      && after[id] == Request(Validation, Resolved, now)
      && forall k :: k in rs && k != id ==> Unless(rs[k], after[k], rs[k].kind == Validation)
  {
    CreateOpens(rs, id, Validation, now);
    AnswerCloses(Create(rs, id, Validation, now), id);
  }

  // ---- cancel_account_prepare ----

  ghost predicate Cancels(c: Contact, now: nat, o: Outcome) {
    && (o.Deleted? <==> MojeId in c.states && Linked !in c.states)
    && (o.Changed? <==> MojeId in c.states && Linked in c.states)
    && (o.Changed? ==>
          && o.stored
          && (forall s :: s in o.after.requested <==> s in c.states && s !in {MojeId, Validated} + PROHIBITIONS)
          && OnlyInvalidates(c.requests, o.after.requests, Validation)
          && o.after == c.(requested := o.after.requested, requests := o.after.requests, changed := now))
    && (!o.Deleted? && !o.Changed? ==> o == Failed(ObjectDoesntExist))
  }

  lemma CancelAccountEffect(c: Contact, now: nat)
    requires Good(c, now)
    ensures Cancels(c, now, CancelAccount(c, now))
  {
    CancelAccountKeeps(c, now);
  }

  // ---- send_new_pin3 ----

  ghost predicate SendsNewPin3(c: Contact, now: nat, id: nat, lettersOk: bool, o: Outcome) {
    var kind := if HasOpen(c.requests, Reidentification) then Reidentification else Identification;
    && (o.Changed? <==> MojeId in c.states && Identified !in c.states && lettersOk)
    && (o.Changed? ==>
          && !o.stored && OnlyRequestsDiffer(c, o.after)
          && o.after.requests.Keys == c.requests.Keys + {id}
          && o.after.requests[id] == Request(kind, Opened, now)
          && forall k :: k in c.requests && k != id ==>
               Unless(c.requests[k], o.after.requests[k],
                 || c.requests[k].kind == Identification || c.requests[k].kind == Reidentification
                 || (kind == Identification && c.requests[k].kind == PlainIdentification)))
    && (!o.Changed? ==>
          || (o == Failed(IdentificationAlreadyProcessed) && Identified in c.states)
          || (o == Failed(ObjectDoesntExist) && MojeId !in c.states)
          || (o == Failed(MessageLimitExceeded) && !lettersOk))
  }

  lemma SendPin3Effect(c: Contact, now: nat, id: nat, lettersOk: bool)
    requires Good(c, now) && id !in c.requests
    ensures SendsNewPin3(c, now, id, lettersOk, SendPin3(c, now, id, lettersOk))
  {
    var cleared := Invalidate(c.requests, {Identification, Reidentification});
    CreateOpens(cleared, id, if HasOpen(c.requests, Reidentification) then Reidentification else Identification, now);
  }

  // ---- disclose flags ----

  /** Only a verified mojeID contact that nobody blocked sets its flags, and an organization cannot hide its address. */
  ghost predicate SetsFlags(c: Contact, now: nat, address: bool, othersDiffer: bool, o: Outcome) {
    var allowed :=
      && MojeId in c.states && (Identified in c.states || Validated in c.states) && ServerBlocked !in c.states
      && (c.organization != "" ==> address);
    var differs := address != c.addressDisclosed || othersDiffer;
    && (o.Changed? <==> allowed && differs)
    && (o.Nothing? <==> allowed && !differs)
    && (o.Changed? ==> o == Changed(c.(addressDisclosed := address, changed := now), false))
    && (!allowed ==>
          || (o == Failed(ObjectDoesntExist) && MojeId !in c.states && !c.identityAttached)
          || (o == Failed(AccessDenied) && !(MojeId in c.states && (Identified in c.states || Validated in c.states)))
          || (o == Failed(ObjectAdminBlocked) && ServerBlocked in c.states)
          || (o == Failed(IncorrectUsage) && c.organization != "" && !address))
  }

  lemma SetDiscloseFlagsEffect(c: Contact, now: nat, address: bool, othersDiffer: bool)
    requires Good(c, now)
    ensures SetsFlags(c, now, address, othersDiffer, SetDiscloseFlags(c, now, address, othersDiffer))
  {
    assert c.states * {Identified, Validated} != {} <==> Identified in c.states || Validated in c.states by {
      assert Identified in c.states ==> Identified in c.states * {Identified, Validated};
      assert Validated in c.states ==> Validated in c.states * {Identified, Validated};
    }
  }

  /** The updater hides the address of whoever is identified or validated and no organization, and shows all others. */
  lemma HideVerifiedEffect(c: Contact, now: nat)
    ensures var person := (Identified in c.states || Validated in c.states) && Blank(c.organization);
      HideVerified(c, now) == Changed(c.(addressDisclosed := !person, changed := now), false)
  {
    assert Identified in c.states ==> Identified in c.states * {Identified, Validated};
    assert Validated in c.states ==> Validated in c.states * {Identified, Validated};
  }

  /** get_contact_state answers for mojeID contacts in mojeID's own hands, and for no others. */
  lemma ReadStateEffect(c: Contact, now: nat)
    requires Good(c, now)
    ensures ReadState(c) == if MojeId in c.states && c.sponsoredByMojeId then Nothing else Failed(ObjectDoesntExist)
  {
  }

  /** A new contact: no states, everything disclosed, and one opened request that registers it. */
  lemma NewEffect(now: nat, id: nat, organization: string)
    ensures var c := New(now, id, organization);
      && c.states == c.requested == {} && c.requests == map[id := Request(ConditionalIdentification, Opened, now)]
      && c.organization == organization && c.addressDisclosed && c.sponsoredByMojeId && !c.identityAttached
      && forall i: RegistrationInput :: i.request == id ==> (CanRegister(c, i) <==> i.passwordOk && i.dataOk)
  {
  }
}
