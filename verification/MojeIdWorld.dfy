/**
  The mojeID server over time: contacts, transactions prepared for two-phase commit, and the in-memory map from
  transaction ids to contacts. Every operation is one step with a later clock; a prepared transaction holds the lock of
  its contact, so an operation on that contact waits, which here means it does nothing yet.
 */
module MojeIdWorld {
  import opened Options
  import opened MojeIdRequests
  import opened MojeIdContact
  import opened MojeIdInvariants
  import opened RegistryContact

  type ContactId = nat
  type TransactionId = string

  /** A transaction between its two phases; one without a lock has nothing to commit. */
  datatype Prepared =
    | Locking(contact: ContactId, before: Option<Contact>, after: Option<Contact>)
    | Empty

  datatype World = World(
    contacts: map<ContactId, Contact>,
    prepared: map<TransactionId, Prepared>,
    storage: map<TransactionId, ContactId>,
    clock: nat,
    nextContact: ContactId,
    nextRequest: nat)

  const INITIAL := World(map[], map[], map[], 0, 0, 0)

  datatype Operation =
    | CreatePrepare(tid: TransactionId, organization: string, dataOk: bool)
    | TransferPrepare(tid: TransactionId, contact: ContactId, dataOk: bool)
    | UpdatePrepare(tid: TransactionId, contact: ContactId, update: UpdateInput)
    | UpdateValidatedPrepare(tid: TransactionId, contact: ContactId, dataOk: bool)
    | UpdateTransferPrepare(tid: TransactionId, contact: ContactId, transfer: TransferInput)
    | CancelAccountPrepare(tid: TransactionId, contact: ContactId)
    | Commit(tid: TransactionId)
    | Rollback(tid: TransactionId)
    | ProcessRegistration(contact: ContactId, registration: RegistrationInput)
    | ProcessIdentification(contact: ContactId, passwordOk: bool)
    | CreateValidationRequest(contact: ContactId, dataOk: bool)
    | ValidateContact(contact: ContactId, dataOk: bool)
    | SendNewPin3(contact: ContactId, lettersOk: bool)
    | GetContactState(contact: ContactId)
    | SetContactDiscloseFlags(contact: ContactId, address: bool, othersDiffer: bool)
    | UpdaterHideVerified(contact: ContactId)
    // what happens outside mojeID
    | RegistrarCreates(organization: string)
    | RegistrarUpdates(contact: ContactId, epp: EppInput)
    | RegistrarTransfers(contact: ContactId, bySystem: bool, byMojeId: bool, passwordOk: bool)
    | RegistrarDeletes(contact: ContactId, bySystem: bool)
    | CreateConditionalIdentification(contact: ContactId, dataOk: bool)
    | ProcessConditionalIdentification(contact: ContactId, answer: AnswerInput)
    | ProcessPlainIdentification(contact: ContactId, passwordOk: bool, dataOk: bool, hides: bool)
    | ChangesLock(contact: ContactId, lock: Lock)
    | RegistryActs(contact: ContactId, sets: set<State>, clears: set<State>, attached: bool)

  function Lookup(contacts: map<ContactId, Contact>, id: ContactId): Option<Contact> {
    if id in contacts then Some(contacts[id]) else None
  }

  predicate Locks(w: World, tid: TransactionId, id: ContactId) {
    tid in w.prepared && w.prepared[tid].Locking? && w.prepared[tid].contact == id
  }

  ghost predicate Locked(w: World, id: ContactId) {
    exists tid :: Locks(w, tid, id)
  }

  function Tick(w: World): World {
    w.(clock := w.clock + 1, nextRequest := w.nextRequest + 1)
  }

  predicate OnContact(op: Operation) {
    !op.CreatePrepare? && !op.Commit? && !op.Rollback? && !op.RegistrarCreates?
  }

  predicate Prepares(op: Operation) {
    || op.TransferPrepare? || op.UpdatePrepare? || op.UpdateValidatedPrepare? || op.UpdateTransferPrepare?
    || op.CancelAccountPrepare?
  }

  /** Steps of others than mojeID on an existing contact. */
  predicate Outside(op: Operation) {
    || op.RegistrarUpdates? || op.RegistrarTransfers? || op.RegistrarDeletes?
    || op.CreateConditionalIdentification? || op.ProcessConditionalIdentification? || op.ProcessPlainIdentification?
    || op.ChangesLock? || op.RegistryActs?
  }

  /** Updates are those of registrars without system rights. */
  ghost function OutsideOutcome(c: Contact, now: nat, id: nat, op: Operation): Outcome
    requires Outside(op)
  {
    match op
    case RegistrarUpdates(_, i) => EppUpdate(c, now, i.(bySystem := false))
    case RegistrarTransfers(_, bySystem, byMojeId, passwordOk) => EppTransfer(c, now, bySystem, byMojeId, passwordOk)
    case RegistrarDeletes(_, bySystem) => EppDelete(c, bySystem)
    case CreateConditionalIdentification(_, dataOk) => StartVerification(c, now, id, dataOk)
    case ProcessConditionalIdentification(_, i) =>
      if i.request in c.requests then AnswerConditional(c, now, id, i) else Failed(IdentificationFailed)
    case ProcessPlainIdentification(_, passwordOk, dataOk, hides) =>
      AnswerIdentification(c, now, passwordOk, dataOk, hides)
    case ChangesLock(_, lock) => ChangeLock(c, lock)
    case RegistryActs(_, sets, clears, attached) => Changed(Foreign(c, sets, clears, attached), false)
  }

  /** The first phases. */
  function PreparedOutcome(c: Contact, now: nat, id: nat, op: Operation): Outcome
    requires Prepares(op)
  {
    match op
    case TransferPrepare(_, _, dataOk) => Transfer(c, now, id, dataOk)
    case UpdatePrepare(_, _, i) => Update(c, now, id, i)
    case UpdateValidatedPrepare(_, _, dataOk) => UpdateValidated(c, now, dataOk)
    case UpdateTransferPrepare(_, _, i) => UpdateTransfer(c, now, id, i)
    case CancelAccountPrepare(_, _) => CancelAccount(c, now)
  }

  /** The operations that commit at once. */
  ghost function DirectOutcome(c: Contact, now: nat, id: nat, op: Operation): Outcome
    requires OnContact(op) && !Prepares(op) && !Outside(op)
  {
    match op
    case ProcessRegistration(_, i) =>
      if i.request in c.requests then Register(c, now, id, i) else Failed(IdentificationRequestDoesntExist)
    case ProcessIdentification(_, passwordOk) => Identify(c, now, passwordOk)
    case CreateValidationRequest(_, dataOk) => RequestValidation(c, now, id, dataOk)
    case ValidateContact(_, dataOk) => Validate(c, now, id, dataOk)
    case SendNewPin3(_, lettersOk) => SendPin3(c, now, id, lettersOk)
    case GetContactState(_) => ReadState(c)
    case SetContactDiscloseFlags(_, address, othersDiffer) => SetDiscloseFlags(c, now, address, othersDiffer)
    case UpdaterHideVerified(_) => HideVerified(c, now)
  }

  /** The outcome of an operation that works on an existing contact. */
  ghost function OutcomeOf(w: World, op: Operation): Outcome {
    if !OnContact(op) || op.contact !in w.contacts then Failed(ObjectDoesntExist)
    else
      var c := w.contacts[op.contact];
      if Prepares(op) then PreparedOutcome(c, w.clock, w.nextRequest, op)
      else if Outside(op) then OutsideOutcome(c, w.clock, w.nextRequest, op)
      else DirectOutcome(c, w.clock, w.nextRequest, op)
  }

  // ---- steps ----

  /** An operation that commits at once. */
  function Apply(w: World, id: ContactId, o: Outcome): World {
    match o
    case Changed(after, _) => Tick(w).(contacts := w.contacts[id := after])
    case FailedAfter(_, after) => Tick(w).(contacts := w.contacts[id := after])
    case Deleted => Tick(w).(contacts := w.contacts - {id})
    case _ => Tick(w)
  }

  /** The database side of the first phase, which refuses an identifier that is in use. */
  function PrepareTransaction(w: World, tid: TransactionId, p: Prepared): World {
    if tid in w.prepared then w else w.(prepared := w.prepared[tid := p])
  }

  /** The first phase: the change is remembered, the registry is not touched. The map is written before the transaction
      is prepared, so a refused identifier can leave an entry behind. */
  function Prepare(w: World, tid: TransactionId, id: ContactId, o: Outcome): World {
    var before := Lookup(w.contacts, id);
    match o
    case Changed(after, stored) =>
      if stored && tid in w.storage then Tick(w)
      else
        var t := if stored then w.(storage := w.storage[tid := id]) else w;
        Tick(PrepareTransaction(t, tid, Locking(id, before, Some(after))))
    case Deleted => Tick(PrepareTransaction(w, tid, Locking(id, before, None)))
    case Nothing => Tick(PrepareTransaction(w, tid, Empty))
    case _ => Tick(w)
  }

  function Install(contacts: map<ContactId, Contact>, p: Prepared): map<ContactId, Contact> {
    match p
    case Empty => contacts
    case Locking(id, _, None) => contacts - {id}
    case Locking(id, _, Some(after)) => contacts[id := after]
  }

  /** The second phase: the change becomes visible and the state requests of the remembered contact are performed. */
  function CommitPrepared(w: World, tid: TransactionId): World {
    if tid !in w.prepared then Tick(w)
    else
      var installed := Install(w.contacts, w.prepared[tid]);
      var contacts :=
        if tid in w.storage && w.storage[tid] in installed then
          installed[w.storage[tid] := Perform(installed[w.storage[tid]])]
        else installed;
      Tick(w).(contacts := contacts, prepared := w.prepared - {tid}, storage := w.storage - {tid})
  }

  function RollbackPrepared(w: World, tid: TransactionId): World {
    if tid !in w.prepared then Tick(w)
    else Tick(w).(prepared := w.prepared - {tid}, storage := w.storage - {tid})
  }

  ghost function Step(w: World, op: Operation): World {
    match op
    case CreatePrepare(tid, organization, dataOk) =>
      if !dataOk then Tick(w)
      else
        Prepare(w, tid, w.nextContact, Changed(New(w.clock, w.nextRequest, organization), true))
          .(nextContact := w.nextContact + 1)
    case RegistrarCreates(organization) =>
      Tick(w).(contacts := w.contacts[w.nextContact := Contact({}, {}, map[], 0, organization, true, false, false)],
               nextContact := w.nextContact + 1)
    case Commit(tid) => CommitPrepared(w, tid)
    case Rollback(tid) => RollbackPrepared(w, tid)
    case _ =>
      if op.contact !in w.contacts || Locked(w, op.contact) then Tick(w)
      else if Prepares(op) then Prepare(w, op.tid, op.contact, OutcomeOf(w, op))
      else Apply(w, op.contact, OutcomeOf(w, op))
  }

  ghost function Run(w: World, ops: seq<Operation>): World
    decreases |ops|
  {
    if ops == [] then w else Run(Step(w, ops[0]), ops[1..])
  }

  // ---- the invariant ----

  ghost predicate Numbered(c: Contact, nextRequest: nat) {
    forall id :: id in c.requests ==> id < nextRequest
  }

  ghost predicate ContactsGood(w: World) {
    forall id :: id in w.contacts ==>
      id < w.nextContact && Good(w.contacts[id], w.clock) && Numbered(w.contacts[id], w.nextRequest)
  }

  /** A locked contact is still what it was, what it will be is good, and no state request of it can be lost. */
  ghost predicate PreparedGood(w: World, tid: TransactionId)
    requires tid in w.prepared
  {
    match w.prepared[tid]
    case Empty => true
    case Locking(id, before, after) =>
      && id < w.nextContact
      && before == Lookup(w.contacts, id)
      && (after.Some? ==>
            && Good(Perform(after.value), w.clock) && Numbered(after.value, w.nextRequest)
            && (before.Some? ==> Evolves(before.value.requests, after.value.requests))
            && (after.value.requested != after.value.states ==> tid in w.storage && w.storage[tid] == id))
  }

  /** Only outstanding transactions have an entry. */
  ghost predicate StorageGood(w: World) {
    forall tid :: tid in w.storage ==> tid in w.prepared
  }

  ghost predicate LocksExclusive(w: World) {
    forall s, t, id :: Locks(w, s, id) && Locks(w, t, id) ==> s == t
  }

  ghost predicate Inv(w: World) {
    && ContactsGood(w)
    && (forall tid :: tid in w.prepared ==> PreparedGood(w, tid))
    && StorageGood(w)
    && LocksExclusive(w)
  }
}
