/**
  What each mojeID operation does to the one contact it works on. Calls into the registry library appear as the effect
  they stand for: states are requested or their requests cancelled, performing the requests makes them the contact's
  states, every update or transfer of the contact stamps its time of change. The outcomes of comparing old and new
  contact data, of data checks, of password checks and of letter limits are inputs.
 */
module MojeIdContact {
  import opened MojeIdRequests
  import opened Options
  import opened Strings

  datatype State =
    | ConditionallyIdentified
    | Identified
    | Validated
    | MojeId
    | ServerDeleteProhibited
    | ServerTransferProhibited
    | ServerUpdateProhibited
    | ServerBlocked
    | Linked
    | FailedManualVerification
    | PassedManualVerification

  const PROHIBITIONS := {ServerDeleteProhibited, ServerTransferProhibited, ServerUpdateProhibited}

  datatype Contact = Contact(
    states: set<State>,
    requested: set<State>,
    requests: Requests,
    changed: nat,
    organization: string,
    addressDisclosed: bool,
    sponsoredByMojeId: bool,
    identityAttached: bool)

  datatype Error =
    | ObjectDoesntExist
    | IdentityAttached
    | AlreadyMojeidContact
    | ObjectAdminBlocked
    | ObjectUserBlocked
    | InvalidData
    | MessageLimitExceeded
    | IdentificationRequestDoesntExist
    | IdentificationAlreadyProcessed
    | IdentificationAlreadyInvalidated
    | IdentificationFailed
    | ContactChanged
    | UnexpectedRequestType
    | ValidationRequestExists
    | ValidationAlreadyProcessed
    | AccessDenied
    | IncorrectUsage
    // from the rest of the registry
    | StatusProhibitsOperation
    | DiscloseRulesViolated
    | NotApplicable
    | OperationProhibited
    | AlreadyLocked
    | HasDifferentLock
    | NotLocked
    // the defensive throws
    | ConditionalIdentificationMissing
    | ContactNotProtected
    | BadMojeidContact

  /** How an operation ends. */
  datatype Outcome =
    | Changed(after: Contact, stored: bool)             // a change, and whether the transaction map remembers it
    | Deleted
    | Nothing                                           // success without any effect
    | Failed(error: Error)                              // thrown and rolled back
    | FailedAfter(error: Error, after: Contact)         // thrown, but what was done is committed

  // ---- library effects ----

  function Ask(c: Contact, states: set<State>): Contact {
    c.(requested := c.requested + states)
  }

  function Cancel(c: Contact, states: set<State>): Contact {
    c.(requested := c.requested - states)
  }

  function Perform(c: Contact): Contact {
    c.(states := c.requested)
  }

  /** Contact::undisclose_address, under the guard all its callers share. */
  function Undisclose(c: Contact, now: nat): Contact {
    if c.addressDisclosed && c.organization == "" then c.(addressDisclosed := false, changed := now) else c
  }

  function TakeOver(c: Contact, now: nat): Contact {
    if c.sponsoredByMojeId then c else c.(sponsoredByMojeId := true, changed := now)
  }

  ghost function OpenRequest(rs: Requests, kind: Kind): (r: Option<nat>)
    ensures r.Some? ==> IsOpen(rs, r.value, kind)
    ensures r.None? ==> !HasOpen(rs, kind)
  {
    if exists id :: IsOpen(rs, id, kind) then
      var id :| IsOpen(rs, id, kind);
      Some(id)
    else None
  }

  // ---- operations ----

  function New(now: nat, id: nat, organization: string): Contact {
    Contact({}, {}, Create(map[], id, ConditionalIdentification, now), 0, organization, true, true, false)
  }

  /** states_before_transfer_into_mojeid and the order in which its findings are raised. */
  function TransferRefusal(c: Contact): Option<Error> {
    if MojeId in c.states then Some(AlreadyMojeidContact)
    else if ServerBlocked in c.states then Some(ObjectAdminBlocked)
    else if c.states * PROHIBITIONS != {} then Some(ObjectUserBlocked)
    else None
  }

  function Transfer(c: Contact, now: nat, id: nat, dataOk: bool): Outcome {
    if c.identityAttached then Failed(IdentityAttached)
    else if TransferRefusal(c).Some? then Failed(TransferRefusal(c).value)
    else if !dataOk then Failed(InvalidData)
    else if ConditionallyIdentified !in c.states && Identified !in c.states && Validated !in c.states then
      Changed(c.(requests := Create(c.requests, id, ConditionalIdentification, now)), true)
    else if ConditionallyIdentified in c.states && Identified !in c.states && Validated !in c.states then
      Changed(c.(requests := Create(c.requests, id, ConditionallyIdentifiedTransfer, now)), true)
    else if ConditionallyIdentified in c.states && Identified in c.states && Validated !in c.states then
      Changed(c.(requests := Create(c.requests, id, IdentifiedTransfer, now)), true)
    else
      Changed(c, false)  // no branch taken: the transaction is prepared without any request
  }

  /** What is found out about new data for update_contact_prepare. */
  datatype UpdateInput = UpdateInput(
    anyChange: bool,
    validatedDataChanged: bool,
    identifiedDataChanged: bool,
    verifiedDataChanged: bool,
    organization: string,
    dataOk: bool,
    lettersOk: bool,
    identifiedBefore: bool,
    autoPin3: bool)

  const MANUAL_VERIFICATION := {FailedManualVerification, PassedManualVerification}

  /** The states an update drops, of those the contact has. */
  function UpdateCancels(states: set<State>, i: UpdateInput): set<State> {
    (if i.validatedDataChanged then {Validated} * states else {})
    + (if i.identifiedDataChanged then {Identified} * states else {})
    + (if i.verifiedDataChanged then MANUAL_VERIFICATION * states else {})
  }

  /** Changed identification data asks for a new identification, or a repeated one. */
  function UpdateRequests(c: Contact, now: nat, id: nat, i: UpdateInput): Requests {
    if i.identifiedDataChanged && i.autoPin3 then
      var again := Identified in c.states || i.identifiedBefore;
      Create(c.requests, id, if again then Reidentification else Identification, now)
    else c.requests
  }

  function Updated(c: Contact, now: nat, id: nat, i: UpdateInput): Contact {
    var staysIdentified := Identified in c.states && !i.identifiedDataChanged;
    var staysValidated := Validated in c.states && !i.validatedDataChanged;
    var canBeHidden := (staysIdentified || staysValidated) && i.organization == "";
    Cancel(c, UpdateCancels(c.states, i)).(
      requests := UpdateRequests(c, now, id, i),
      organization := i.organization,
      addressDisclosed := c.addressDisclosed || !canBeHidden,
      changed := now)
  }

  function Update(c: Contact, now: nat, id: nat, i: UpdateInput): Outcome {
    if MojeId !in c.states then Failed(ObjectDoesntExist)
    else if !i.anyChange then Nothing
    else if i.identifiedDataChanged && i.autoPin3 && !i.lettersOk then Failed(MessageLimitExceeded)
    else if !i.dataOk then Failed(InvalidData)
    else Changed(Updated(c, now, id, i), UpdateCancels(c.states, i) != {})
  }

  function UpdateValidated(c: Contact, now: nat, dataOk: bool): Outcome {
    if MojeId !in c.states then Failed(ObjectDoesntExist)
    else if !dataOk then Failed(InvalidData)
    else
      var toCancel := MANUAL_VERIFICATION * c.states;
      Changed(Cancel(c, toCancel).(changed := now), toCancel != {})
  }

  /** What is found out about new data for update_transfer_contact_prepare. */
  datatype TransferInput = TransferInput(
    nameOrMailingChanged: bool,
    phoneOrEmailChanged: bool,
    validatedDataChanged: bool,
    organization: string,
    dataOk: bool,
    lettersOk: bool)

  function UpdateTransfer(c: Contact, now: nat, id: nat, i: TransferInput): Outcome {
    if c.identityAttached then Failed(IdentityAttached)
    else if TransferRefusal(c).Some? then Failed(TransferRefusal(c).value)
    else if !i.lettersOk then Failed(MessageLimitExceeded)
    else if !i.dataOk then Failed(InvalidData)
    else
      var nameDrops := Identified in c.states && i.nameOrMailingChanged;
      var dropCond :=
        && (ConditionallyIdentified in c.states || (!nameDrops && Identified in c.states))
        && i.phoneOrEmailChanged;
      var dropIdentification := nameDrops || dropCond;
      var dropValidation := Validated in c.states && i.validatedDataChanged;
      var toCancel :=
        (if dropCond then {ConditionallyIdentified} * c.states else {})
        + (if dropIdentification then {Identified} * c.states else {})
        + (if dropValidation then {Validated} else {});
      var canBeHidden :=
        && ((Identified in c.states && !dropIdentification) || (Validated in c.states && !dropValidation))
        && i.organization == "";
      var kind :=
        if ConditionallyIdentified in c.states && !dropCond then PrevalidatedTransfer
        else PrevalidatedUnidentifiedTransfer;
      var after := Cancel(TakeOver(c, now), toCancel).(
        requests := Create(c.requests, id, kind, now),
        organization := i.organization,
        addressDisclosed := c.addressDisclosed || !canBeHidden,
        changed := now);
      Changed(after, true)
  }

  /** The five request types process_registration_request knows. */
  predicate Registers(kind: Kind) {
    kind.ConditionalIdentification? || kind.PrevalidatedUnidentifiedTransfer? || kind.TransfersIdentified()
  }

  function RegistrationStates(kind: Kind, states: set<State>): set<State>
    requires Registers(kind)
  {
    (match kind
     case ConditionalIdentification => {ConditionallyIdentified}
     case PrevalidatedUnidentifiedTransfer => {ConditionallyIdentified} + ({Validated} - states)
     case PrevalidatedTransfer => {Validated} - states
     case _ => {})
    + PROHIBITIONS + {MojeId}
  }

  /** The request, its password and the contact's data as process_registration_request finds them. */
  datatype RegistrationInput = RegistrationInput(request: nat, passwordOk: bool, dataOk: bool, autoPin3: bool)

  function Register(c: Contact, now: nat, id: nat, i: RegistrationInput): Outcome
    requires i.request in c.requests
  {
    var r := c.requests[i.request];
    if c.identityAttached then Failed(IdentityAttached)
    // the type is converted before the status is looked at
    else if !Registers(r.kind) then Failed(UnexpectedRequestType)
    else if r.status == Resolved then Failed(IdentificationAlreadyProcessed)
    else if r.status == Invalidated then Failed(IdentificationAlreadyInvalidated)
    else if r.created < c.changed then
      FailedAfter(ContactChanged, c.(requests := SetStatus(c.requests, i.request, Invalidated)))
    else if !i.passwordOk then Failed(IdentificationFailed)
    else
      var toSet := RegistrationStates(r.kind, c.states);
      var validatedNow := Validated in toSet;
      var performed := Perform(Ask(c, toSet));
      var undisclosed := if validatedNow then Undisclose(performed, now) else performed;
      if !i.dataOk then Failed(InvalidData)
      else
        var taken := TakeOver(undisclosed, now);
        var answered := SetStatus(c.requests, i.request, Resolved);
        var requests :=
          if i.autoPin3 && Identified !in taken.states then Create(answered, id, Identification, now) else answered;
        Changed(taken.(requests := requests), false)
  }

  /** process_identification_request, with the opened request it found. */
  function IdentifyWith(c: Contact, now: nat, passwordOk: bool, found: Option<nat>): Outcome
    requires found.Some? ==> found.value in c.requests && !c.requests[found.value].kind.InvalidationOnly()
  {
    if found.None? then Failed(IdentificationRequestDoesntExist)
    else if MojeId !in c.states then Failed(ObjectDoesntExist)
    else if ConditionallyIdentified !in c.states then Failed(ConditionalIdentificationMissing)
    else if Identified in c.states then Failed(IdentificationAlreadyProcessed)
    else if ServerBlocked in c.states then Failed(ObjectAdminBlocked)
    else if !(PROHIBITIONS <= c.states) then Failed(ContactNotProtected)
    else if !passwordOk then Failed(IdentificationFailed)
    else
      var performed := Undisclose(Perform(Ask(c, {Identified})), now);
      Changed(performed.(requests := SetStatus(c.requests, found.value, Resolved)), false)
  }

  ghost function Identify(c: Contact, now: nat, passwordOk: bool): Outcome {
    var first := OpenRequest(c.requests, Identification);
    IdentifyWith(c, now, passwordOk, if first.Some? then first else OpenRequest(c.requests, Reidentification))
  }

  ghost function RequestValidation(c: Contact, now: nat, id: nat, dataOk: bool): Outcome {
    if HasOpen(c.requests, Validation) then Failed(ValidationRequestExists)
    else if Validated in c.states then Failed(ValidationAlreadyProcessed)
    else if MojeId !in c.states then Failed(ObjectDoesntExist)
    else if !dataOk then Failed(InvalidData)
    else Changed(c.(requests := Create(c.requests, id, Validation, now)), false)
  }

  function Validate(c: Contact, now: nat, id: nat, dataOk: bool): Outcome {
    if Validated in c.states then Failed(ValidationAlreadyProcessed)
    else if MojeId !in c.states then Failed(ObjectDoesntExist)
    else if !dataOk then Failed(InvalidData)
    else
      var requests := SetStatus(Create(c.requests, id, Validation, now), id, Resolved);
      Changed(Undisclose(Perform(Ask(c, {Validated})), now).(requests := requests), false)
  }

  function CancelAccount(c: Contact, now: nat): Outcome {
    if MojeId !in c.states then Failed(ObjectDoesntExist)
    else if c.states * {Validated, Identified, ConditionallyIdentified} == {} then Failed(BadMojeidContact)
    else if Linked !in c.states then Deleted
    else
      var toCancel := {MojeId} + (PROHIBITIONS + {Validated}) * c.states;
      Changed(Cancel(c, toCancel).(requests := Invalidate(c.requests, {Validation}), changed := now), true)
  }

  ghost function SendPin3(c: Contact, now: nat, id: nat, lettersOk: bool): Outcome {
    if Identified in c.states then Failed(IdentificationAlreadyProcessed)
    else if MojeId !in c.states then Failed(ObjectDoesntExist)
    else if !lettersOk then Failed(MessageLimitExceeded)
    else
      var again := HasOpen(c.requests, Reidentification);
      var cleared := Invalidate(c.requests, {Identification, Reidentification});
      Changed(c.(requests := Create(cleared, id, if again then Reidentification else Identification, now)), false)
  }

  /** DomainBrowser::setContactDiscloseFlags, as far as the address is concerned. */
  function SetDiscloseFlags(c: Contact, now: nat, address: bool, othersDiffer: bool): Outcome {
    if MojeId !in c.states && !c.identityAttached then Failed(ObjectDoesntExist)
    else if !(MojeId in c.states && c.states * {Identified, Validated} != {}) then Failed(AccessDenied)
    else if ServerBlocked in c.states then Failed(ObjectAdminBlocked)
    else if c.organization != "" && !address then Failed(IncorrectUsage)
    else if address == c.addressDisclosed && !othersDiffer then Nothing
    else Changed(Perform(c).(addressDisclosed := address, changed := now), false)
  }

  /** get_contact_state: what it finds out first; it changes nothing. */
  function ReadState(c: Contact): Outcome {
    if !c.sponsoredByMojeId then Failed(ObjectDoesntExist)
    else if MojeId !in c.states then Failed(ObjectDoesntExist)
    else if ConditionallyIdentified !in c.states then Failed(ConditionalIdentificationMissing)
    else Nothing
  }

  /** The disclose flags updater with hide-verified, on one contact. */
  function HideVerified(c: Contact, now: nat): Outcome {
    var allowed := c.states * {Identified, Validated} != {} && Blank(c.organization);
    Changed(c.(addressDisclosed := !allowed, changed := now), false)
  }
}
