/**
  What the rest of the registry does to a contact that mojeID also works on: its registrar's EPP update, the contact
  verification of the registry, blocking on request, and the states the registry keeps for itself. The outcomes of
  comparing data, of data checks and of password checks are inputs here as well.
 */
module RegistryContact {
  import opened MojeIdRequests
  import opened MojeIdContact
  import opened MojeIdInvariants
  import opened MojeIdEffects
  import opened Options

  // ---- EPP update ----

  /** An update through EPP: whether a system registrar asks; whether the data differ after trimming, or only before;
      what it says about the address, if anything; and whether the hook run after it gets its cancellation through. */
  datatype EppInput = EppInput(
    bySystem: bool,
    organization: string,
    differs: bool,
    respaced: bool,
    address: Option<bool>,
    dataOk: bool,
    cancels: bool)

  predicate MayHide(c: Contact, i: EppInput) {
    c.states * {Identified, Validated} != {} && !i.differs && !i.respaced && c.organization == ""
  }

  function EppUpdate(c: Contact, now: nat, i: EppInput): Outcome {
    if !i.bySystem && ServerUpdateProhibited in c.states then Failed(StatusProhibitsOperation)
    else if !i.dataOk then Failed(InvalidData)
    else if i.address == Some(false) && !MayHide(c, i) then Failed(DiscloseRulesViolated)
    else
      var disclosed := match i.address case Some(public) => public case None => c.addressDisclosed || !MayHide(c, i);
      var dropped := if i.differs && i.cancels then {ConditionallyIdentified, Identified} else {};
      var organization := if i.differs || i.respaced then i.organization else c.organization;
      var performed := Perform(Cancel(c, dropped));
      Changed(performed.(organization := organization, addressDisclosed := disclosed, changed := now), false)
  }

  /** A transfer through EPP: the contact gets a new registrar, which may or may not be that of mojeID. */
  function EppTransfer(c: Contact, now: nat, bySystem: bool, byMojeId: bool, passwordOk: bool): Outcome {
    if !bySystem && ServerTransferProhibited in c.states then Failed(StatusProhibitsOperation)
    else if !passwordOk || (byMojeId && c.sponsoredByMojeId) then Failed(AccessDenied)
    else Changed(c.(sponsoredByMojeId := byMojeId, changed := now), false)
  }

  function EppDelete(c: Contact, bySystem: bool): Outcome {
    if Linked in c.states then Failed(StatusProhibitsOperation)
    else if !bySystem && c.states * {ServerUpdateProhibited, ServerDeleteProhibited} != {} then
      Failed(StatusProhibitsOperation)
    else Deleted
  }

  // ---- contact verification ----

  const VERIFIED := {ConditionallyIdentified, Identified, Validated}

  /** Opening a request of a plain type closes the opened one of the same type, and no other. */
  function Reopen(rs: Requests, id: nat, kind: Kind, now: nat): Requests {
    Invalidate(rs, {kind})[id := Request(kind, Opened, now)]
  }

  /** createConditionalIdentification. */
  function StartVerification(c: Contact, now: nat, id: nat, dataOk: bool): Outcome {
    if !dataOk then Failed(InvalidData)
    else if c.states * VERIFIED != {} then Failed(NotApplicable)
    else Changed(c.(requests := Reopen(c.requests, id, PlainConditionalIdentification, now)), false)
  }

  datatype AnswerInput = AnswerInput(request: nat, passwordOk: bool, dataOk: bool)

  /** processConditionalIdentification: the state is set and the second request is opened. */
  function AnswerConditional(c: Contact, now: nat, id: nat, i: AnswerInput): Outcome
    requires i.request in c.requests
  {
    var r := c.requests[i.request];
    if !r.kind.PlainConditionalIdentification? || !i.passwordOk then Failed(IdentificationFailed)
    else if r.status == Resolved then Failed(IdentificationAlreadyProcessed)
    else if r.status == Invalidated then Failed(IdentificationAlreadyInvalidated)
    else if r.created < c.changed then Failed(ContactChanged)
    else if !i.dataOk then Failed(InvalidData)
    else if c.states * VERIFIED != {} then Failed(NotApplicable)
    else
      var answered := c.requests[i.request := r.(status := Resolved)];
      var performed := Perform(Ask(c, {ConditionallyIdentified}));
      Changed(performed.(requests := Reopen(answered, id, PlainIdentification, now)), false)
  }

  ghost predicate HasResolved(rs: Requests, kind: Kind) {
    exists id :: id in rs && rs[id].kind == kind && rs[id].status == Resolved
  }

  /** processIdentification; a request whose contact lost its first state is invalidated for good. */
  ghost function AnswerIdentification(c: Contact, now: nat, passwordOk: bool, dataOk: bool, hides: bool): Outcome {
    var found := OpenRequest(c.requests, PlainIdentification);
    if HasResolved(c.requests, PlainIdentification) && found.None? then Failed(IdentificationAlreadyProcessed)
    else if ConditionallyIdentified !in c.states then
      FailedAfter(IdentificationAlreadyInvalidated, c.(requests := Invalidate(c.requests, {PlainIdentification})))
    else if found.None? || !passwordOk then Failed(IdentificationFailed)
    else if Identified in c.states then Failed(NotApplicable)
    else if !dataOk then Failed(InvalidData)
    else
      var performed := Perform(Ask(c, {Identified}));
      var undisclosed := if hides then Undisclose(performed, now) else performed;
      var r := c.requests[found.value];
      Changed(undisclosed.(requests := c.requests[found.value := r.(status := Resolved)]), false)
  }

  // ---- blocking ----

  datatype Lock = BlockTransfer | BlockTransferAndUpdate | UnblockTransfer | UnblockTransferAndUpdate

  const LOCKED := {ServerTransferProhibited, ServerUpdateProhibited}

  /** Blocking and unblocking on a confirmed public request, which a mojeID contact is exempt from. */
  function ChangeLock(c: Contact, lock: Lock): Outcome {
    var transfer, update := ServerTransferProhibited in c.states, ServerUpdateProhibited in c.states;
    if MojeId in c.states || ServerBlocked in c.states then Failed(OperationProhibited)
    else
      match lock
      case BlockTransfer =>
        if transfer then Failed(AlreadyLocked)
        else if update then Failed(HasDifferentLock)
        else Changed(Perform(Ask(c, {ServerTransferProhibited})), false)
      case BlockTransferAndUpdate =>
        if transfer && update then Failed(AlreadyLocked) else Changed(Perform(Ask(c, LOCKED)), false)
      case UnblockTransfer =>
        if update then Failed(HasDifferentLock)
        else if !transfer then Failed(NotLocked)
        else Changed(Perform(Cancel(c, {ServerTransferProhibited})), false)
      case UnblockTransferAndUpdate =>
        if update then Changed(Perform(Cancel(c, LOCKED)), false)
        else Failed(if transfer then HasDifferentLock else NotLocked)
  }

  /** States the registry itself or its administrators turn on and off. */
  const FOREIGN := {ServerBlocked, Linked, FailedManualVerification, PassedManualVerification}

  function Foreign(c: Contact, sets: set<State>, clears: set<State>, attached: bool): Contact {
    var states := c.states + sets * FOREIGN - clears * FOREIGN;
    c.(states := states, requested := states, identityAttached := attached)
  }

  // ---- what they keep ----

  /**
    An update through EPP stamps the contact, so no transfer request opened before it counts any more. It keeps the
    contact good exactly when it does not take away what a mojeID contact rests on, and only a system registrar can.
   */
  lemma EppUpdateKeepsExactlyWhen(c: Contact, now: nat, i: EppInput)
    requires Good(c, now)
    ensures EppUpdate(c, now, i).Changed? ==>
      (Keeps(c, now, EppUpdate(c, now, i)) <==> !(MojeId in c.states && i.differs && i.cancels))
    ensures !i.bySystem ==> Keeps(c, now, EppUpdate(c, now, i))
  {
    var o := EppUpdate(c, now, i);
    if o.Changed? {
      var dropped := if i.differs && i.cancels then {ConditionallyIdentified, Identified} else {};
      assert o.after.states == o.after.requested == c.states - dropped;
      assert Perform(o.after) == o.after;
      assert PROHIBITIONS <= c.states ==> PROHIBITIONS <= o.after.states;
      assert MojeId in c.states && !i.bySystem ==> ServerUpdateProhibited in PROHIBITIONS;
    }
  }

  /** After such an update of a mojeID contact, identifying it runs into the throw for a missing state. */
  lemma SystemUpdateBreaksIdentification(c: Contact, now: nat, i: EppInput, passwordOk: bool)
    requires Good(c, now) && MojeId in c.states && i.differs && i.cancels && HasOpen(c.requests, Identification)
    ensures var o := EppUpdate(c, now, i);
      o.Changed? ==> Defensive(Identify(o.after, now + 1, passwordOk))
  {
  }

  /** No request opened before the update can register the contact any more. */
  lemma UpdateOutdatesRequests(c: Contact, now: nat, e: EppInput, later: nat, id: nat, i: RegistrationInput)
    requires Good(c, now) && i.request in c.requests
    ensures var o := EppUpdate(c, now, e);
      o.Changed? ==> !Register(o.after, later, id, i).Changed?
  {
  }

  lemma EppTransferKeeps(c: Contact, now: nat, bySystem: bool, byMojeId: bool, passwordOk: bool)
    requires Good(c, now)
    ensures Keeps(c, now, EppTransfer(c, now, bySystem, byMojeId, passwordOk))
  {
  }

  /** While it is a mojeID contact, only a system registrar can update, transfer or delete it through EPP. */
  lemma MojeIdIsProtected(c: Contact, now: nat, i: EppInput, byMojeId: bool, passwordOk: bool)
    requires Good(c, now) && MojeId in c.states
    ensures EppUpdate(c, now, i.(bySystem := false)).Failed?
    ensures EppTransfer(c, now, false, byMojeId, passwordOk).Failed?
    ensures EppDelete(c, false).Failed?
  {
    assert ServerDeleteProhibited in PROHIBITIONS;
    assert ServerDeleteProhibited in c.states * {ServerUpdateProhibited, ServerDeleteProhibited};
  }

  lemma ReopenKeeps(rs: Requests, id: nat, kind: Kind, now: nat)
    requires OneOpenPerKind(rs) && id !in rs
    ensures OneOpenPerKind(Reopen(rs, id, kind, now)) && Evolves(rs, Reopen(rs, id, kind, now))
  {
  }

  lemma StartVerificationKeeps(c: Contact, now: nat, id: nat, dataOk: bool)
    requires Good(c, now) && id !in c.requests
    ensures Keeps(c, now, StartVerification(c, now, id, dataOk))
  {
    ReopenKeeps(c.requests, id, PlainConditionalIdentification, now);
  }

  lemma ClosingKeeps(rs: Requests, request: nat)
    requires OneOpenPerKind(rs) && request in rs && rs[request].status == Opened
    ensures var after := rs[request := rs[request].(status := Resolved)];
      OneOpenPerKind(after) && Evolves(rs, after)
  {
  }

  lemma AnswerConditionalKeeps(c: Contact, now: nat, id: nat, i: AnswerInput)
    requires Good(c, now) && id !in c.requests && i.request in c.requests
    ensures Keeps(c, now, AnswerConditional(c, now, id, i))
  {
    var o := AnswerConditional(c, now, id, i);
    if o.Changed? {
      var answered := c.requests[i.request := c.requests[i.request].(status := Resolved)];
      ClosingKeeps(c.requests, i.request);
      ReopenKeeps(answered, id, PlainIdentification, now);
      EvolvesTransitive(c.requests, answered, o.after.requests);
      assert MojeId !in c.states by {
        assert ConditionallyIdentified in c.states ==> ConditionallyIdentified in c.states * VERIFIED;
      }
      assert Perform(o.after) == o.after;
    }
  }

  lemma AnswerIdentificationKeeps(c: Contact, now: nat, passwordOk: bool, dataOk: bool, hides: bool)
    requires Good(c, now)
    ensures Keeps(c, now, AnswerIdentification(c, now, passwordOk, dataOk, hides))
  {
    var o := AnswerIdentification(c, now, passwordOk, dataOk, hides);
    if o.Changed? {
      ClosingKeeps(c.requests, OpenRequest(c.requests, PlainIdentification).value);
      assert o.after.states == o.after.requested == c.states + {Identified};
    } else if o.FailedAfter? {
      InvalidateKeeps(c.requests, {PlainIdentification});
    }
  }

  lemma ChangeLockKeeps(c: Contact, now: nat, lock: Lock)
    requires Good(c, now)
    ensures Keeps(c, now, ChangeLock(c, lock))
  {
  }

  lemma ForeignKeeps(c: Contact, now: nat, sets: set<State>, clears: set<State>, attached: bool)
    requires Good(c, now)
    ensures Keeps(c, now, Changed(Foreign(c, sets, clears, attached), false))
  {
    var states := c.states + sets * FOREIGN - clears * FOREIGN;
    forall s | s !in FOREIGN ensures s in states <==> s in c.states {
    }
    assert PROHIBITIONS <= c.states ==> PROHIBITIONS <= states;
  }

  // ---- what exactly they do ----

  /** A registrar may hide the address of a verified person whose data it does not touch, and of no one else. */
  predicate PersonUntouched(c: Contact, i: EppInput) {
    MayBeHidden(c.states, c.organization) && !i.differs && !i.respaced
  }

  ghost predicate EppUpdates(c: Contact, now: nat, i: EppInput, o: Outcome) {
    && (o.Changed? <==>
          && (i.bySystem || ServerUpdateProhibited !in c.states) && i.dataOk
          && (i.address == Some(false) ==> PersonUntouched(c, i)))
    && (o.Changed? ==>
          && !o.stored && o.after.requested == o.after.states
          && (forall s :: s in o.after.states <==>
                s in c.states && !((s == ConditionallyIdentified || s == Identified) && i.differs && i.cancels))
          && o.after.requests == c.requests && SameOwnership(c, o.after) && o.after.changed == now
          && o.after.organization == (if i.differs || i.respaced then i.organization else c.organization)
          && o.after.addressDisclosed ==
               (if i.address.Some? then i.address.value else c.addressDisclosed || !PersonUntouched(c, i)))
    && (!o.Changed? ==>
          || (o == Failed(StatusProhibitsOperation) && !i.bySystem && ServerUpdateProhibited in c.states)
          || (o == Failed(InvalidData) && !i.dataOk)
          || (o == Failed(DiscloseRulesViolated) && i.address == Some(false) && !PersonUntouched(c, i)))
  }

  lemma EppUpdateEffect(c: Contact, now: nat, i: EppInput)
    requires Good(c, now)
    ensures EppUpdates(c, now, i, EppUpdate(c, now, i))
  {
    assert MayHide(c, i) <==> PersonUntouched(c, i) by {
      assert Identified in c.states ==> Identified in c.states * {Identified, Validated};
      assert Validated in c.states ==> Validated in c.states * {Identified, Validated};
    }
  }

  /** A transfer or deletion passes exactly without the prohibitions against it, or for a system registrar; a contact
      linked to other objects is never deleted. */
  lemma EppTransferAndDeleteEffect(c: Contact, now: nat, bySystem: bool, byMojeId: bool, passwordOk: bool)
    ensures var o := EppTransfer(c, now, bySystem, byMojeId, passwordOk);
      && (o.Changed? <==>
            && (bySystem || ServerTransferProhibited !in c.states)
            && passwordOk && !(byMojeId && c.sponsoredByMojeId))
      && (o.Changed? ==> o == Changed(c.(sponsoredByMojeId := byMojeId, changed := now), false))
    ensures var o := EppDelete(c, bySystem);
      if Linked !in c.states
         && (bySystem || (ServerUpdateProhibited !in c.states && ServerDeleteProhibited !in c.states))
      then o.Deleted? else o == Failed(StatusProhibitsOperation)
  {
    var both := {ServerUpdateProhibited, ServerDeleteProhibited};
    assert ServerUpdateProhibited in c.states ==> ServerUpdateProhibited in c.states * both;
    assert ServerDeleteProhibited in c.states ==> ServerDeleteProhibited in c.states * both;
  }

  /** Verification starts only for a contact without any of the three verified states. */
  predicate Unverified(c: Contact) {
    ConditionallyIdentified !in c.states && Identified !in c.states && Validated !in c.states
  }

  lemma UnverifiedIs(c: Contact)
    ensures c.states * VERIFIED == {} <==> Unverified(c)
  {
    assert ConditionallyIdentified in c.states ==> ConditionallyIdentified in c.states * VERIFIED;
    assert Identified in c.states ==> Identified in c.states * VERIFIED;
    assert Validated in c.states ==> Validated in c.states * VERIFIED;
  }

  ghost predicate StartsVerification(c: Contact, now: nat, id: nat, dataOk: bool, o: Outcome) {
    && (o.Changed? <==> Unverified(c) && dataOk)
    && (o.Changed? ==>
          && !o.stored && OnlyRequestsDiffer(c, o.after)
          && OnlyOpens(c.requests, o.after.requests, id, PlainConditionalIdentification, now))
    && (!o.Changed? ==>
          (o == Failed(InvalidData) && !dataOk) || (o == Failed(NotApplicable) && !Unverified(c)))
  }

  lemma StartVerificationEffect(c: Contact, now: nat, id: nat, dataOk: bool)
    ensures StartsVerification(c, now, id, dataOk, StartVerification(c, now, id, dataOk))
  {
    UnverifiedIs(c);
  }

  /** The first answer needs its password and a contact that has not changed since, sets one state, resolves its request
      and opens the second. */
  ghost predicate AnswersConditional(c: Contact, now: nat, id: nat, i: AnswerInput, o: Outcome)
    requires i.request in c.requests
  {
    var r := c.requests[i.request];
    && (o.Changed? <==>
          && r.kind == PlainConditionalIdentification && r.status == Opened && c.changed <= r.created
          && Unverified(c) && i.passwordOk && i.dataOk)
    && (o.Changed? ==>
          && !o.stored && o.after.requested == o.after.states == c.states + {ConditionallyIdentified}
          && o.after == c.(states := o.after.states, requested := o.after.requested, requests := o.after.requests)
          && o.after.requests.Keys == c.requests.Keys + {id}
          && o.after.requests[id] == Request(PlainIdentification, Opened, now)
          && o.after.requests[i.request] == r.(status := Resolved)
          && forall k :: k in c.requests && k != i.request ==>
               Unless(c.requests[k], o.after.requests[k], c.requests[k].kind == PlainIdentification))
    && (!o.Changed? ==> o.Failed?)
  }

  lemma AnswerConditionalEffect(c: Contact, now: nat, id: nat, i: AnswerInput)
    requires Good(c, now) && id !in c.requests && i.request in c.requests
    ensures AnswersConditional(c, now, id, i, AnswerConditional(c, now, id, i))
  {
    UnverifiedIs(c);
  }

  /** The second answer needs its password and an opened request; without the first state the request is lost. */
  ghost predicate AnswersIdentification(c: Contact, now: nat, passwordOk: bool, dataOk: bool, hides: bool, o: Outcome) {
    && (o.Changed? <==>
          && HasOpen(c.requests, PlainIdentification) && ConditionallyIdentified in c.states
          && Identified !in c.states && passwordOk && dataOk)
    && (o.Changed? ==>
          && !o.stored && o.after.requested == o.after.states == c.states + {Identified}
          && SameOwnership(c, o.after) && o.after.organization == c.organization
          && (if hides then HidesPersonal(c, o.after, now)
              else o.after.addressDisclosed == c.addressDisclosed && o.after.changed == c.changed)
          && o.after.requests.Keys == c.requests.Keys
          && forall k :: k in c.requests ==>
               o.after.requests[k] ==
                 if IsOpen(c.requests, k, PlainIdentification) then c.requests[k].(status := Resolved)
                 else c.requests[k])
    && (o.FailedAfter? <==>
          && ConditionallyIdentified !in c.states
          && (HasOpen(c.requests, PlainIdentification) || !HasResolved(c.requests, PlainIdentification)))
    && (o.FailedAfter? ==>
          && OnlyRequestsDiffer(c, o.after)
          && OnlyInvalidates(c.requests, o.after.requests, PlainIdentification))
    && (o.Changed? || o.FailedAfter? || o.Failed?)
  }

  lemma AnswerIdentificationEffect(c: Contact, now: nat, passwordOk: bool, dataOk: bool, hides: bool)
    requires Good(c, now)
    ensures AnswersIdentification(c, now, passwordOk, dataOk, hides,
              AnswerIdentification(c, now, passwordOk, dataOk, hides))
  {
    var found := OpenRequest(c.requests, PlainIdentification);
    if found.Some? {
      assert IsOpen(c.requests, found.value, PlainIdentification);
    }
  }

  /** Transfers are blocked after the two blocking requests, updates only after the stronger one; a request is refused
      unless it changes something and matches the block that is there. */
  ghost predicate ChangesLockTo(c: Contact, lock: Lock, o: Outcome) {
    var transfer, update := ServerTransferProhibited in c.states, ServerUpdateProhibited in c.states;
    && (o.Changed? <==>
          && MojeId !in c.states && ServerBlocked !in c.states
          && match lock
             case BlockTransfer => !transfer && !update
             case BlockTransferAndUpdate => !transfer || !update
             case UnblockTransfer => transfer && !update
             case UnblockTransferAndUpdate => update)
    && (o.Changed? ==>
          && !o.stored && o.after.requested == o.after.states
          && o.after == c.(states := o.after.states, requested := o.after.states)
          && forall s :: s in o.after.states <==>
               match s
               case ServerTransferProhibited => lock.BlockTransfer? || lock.BlockTransferAndUpdate?
               case ServerUpdateProhibited => lock.BlockTransferAndUpdate?
               case _ => s in c.states)
    && (!o.Changed? ==> o.Failed?)
  }

  lemma ChangeLockEffect(c: Contact, now: nat, lock: Lock)
    requires Good(c, now)
    ensures ChangesLockTo(c, lock, ChangeLock(c, lock))
  {
  }

  /** The registry's own states, and the identity, are all that changes without a request. */
  lemma ForeignEffect(c: Contact, sets: set<State>, clears: set<State>, attached: bool)
    ensures var after := Foreign(c, sets, clears, attached);
      && after.requested == after.states
      && after == c.(states := after.states, requested := after.states, identityAttached := attached)
      && forall s :: s in after.states <==>
           match s
           case ServerBlocked => (s in c.states || s in sets) && s !in clears
           case Linked => (s in c.states || s in sets) && s !in clears
           case FailedManualVerification => (s in c.states || s in sets) && s !in clears
           case PassedManualVerification => (s in c.states || s in sets) && s !in clears
           case _ => s in c.states
  {
  }
}
