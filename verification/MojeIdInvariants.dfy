/**
  What every mojeID operation keeps about the contact it works on.
 */
module MojeIdInvariants {
  import opened Options
  import opened MojeIdRequests
  import opened MojeIdContact

  ghost predicate StatesGood(states: set<State>) {
    && (MojeId in states ==> ConditionallyIdentified in states && PROHIBITIONS <= states)
    && (Identified in states ==> ConditionallyIdentified in states)
    && (Validated in states ==> MojeId in states)
  }

  predicate Transferable(r: Request) {
    r.status == Opened && r.kind.TransfersIdentified()
  }

  /** An opened transfer request not older than the contact's last change finds it conditionally identified. */
  ghost predicate TransfersGood(c: Contact) {
    forall id :: id in c.requests && Transferable(c.requests[id]) && c.changed <= c.requests[id].created ==>
      ConditionallyIdentified in c.states
  }

  /** A contact between operations; now is later than anything that happened to it. */
  ghost predicate Good(c: Contact, now: nat) {
    && c.requested == c.states
    && StatesGood(c.states)
    && TransfersGood(c)
    && OneOpenPerKind(c.requests)
    && forall id :: id in c.requests ==> c.requests[id].created < now
  }

  /** What an operation may do to a good contact. Once its state requests are performed the contact is good again,
      only opened requests changed, and a change that leaves state requests to perform is remembered. */
  ghost predicate Keeps(c: Contact, now: nat, o: Outcome) {
    match o
    case Changed(after, stored) =>
      && Good(Perform(after), now + 1)
      && Evolves(c.requests, after.requests)
      && (after.requested != after.states ==> stored)
    case FailedAfter(_, after) => Good(after, now + 1) && Evolves(c.requests, after.requests)
    case _ => true
  }

  /** The throws that only a broken contact could reach. */
  predicate Defensive(o: Outcome) {
    o == Failed(ConditionalIdentificationMissing) || o == Failed(ContactNotProtected) || o == Failed(BadMojeidContact)
  }

  lemma NewIsGood(now: nat, id: nat, organization: string)
    ensures Good(New(now, id, organization), now + 1)
  {
  }

  /** Changing nothing but the requests, and opening a transfer request only for a conditionally identified contact. */
  lemma OpensRequest(c: Contact, now: nat, id: nat, kind: Kind)
    requires Good(c, now) && id !in c.requests && !kind.InvalidationOnly()
    requires kind.TransfersIdentified() ==> ConditionallyIdentified in c.states
    ensures Good(c.(requests := Create(c.requests, id, kind, now)), now + 1)
    ensures Evolves(c.requests, Create(c.requests, id, kind, now))
  {
    CreateKeeps(c.requests, id, kind, now);
  }

  /** The three-way branch leaves out no reachable contact: every success opens exactly one request. */
  lemma TransferOpensOne(c: Contact, now: nat, id: nat, dataOk: bool)
    requires Good(c, now) && id !in c.requests
    ensures var o := Transfer(c, now, id, dataOk);
      o.Changed? ==>
        exists kind: Kind ::
          && Registers(kind) && (kind.TransfersIdentified() ==> ConditionallyIdentified in c.states)
          && o == Changed(c.(requests := Create(c.requests, id, kind, now)), true)
  {
    var o := Transfer(c, now, id, dataOk);
    if o.Changed? {
      var kind :=
        if ConditionallyIdentified !in c.states then ConditionalIdentification
        else if Identified !in c.states then ConditionallyIdentifiedTransfer
        else IdentifiedTransfer;
      assert o == Changed(c.(requests := Create(c.requests, id, kind, now)), true);
    }
  }

  lemma TransferKeeps(c: Contact, now: nat, id: nat, dataOk: bool)
    requires Good(c, now) && id !in c.requests
    ensures Keeps(c, now, Transfer(c, now, id, dataOk))
  {
    var o := Transfer(c, now, id, dataOk);
    TransferOpensOne(c, now, id, dataOk);
    if o.Changed? {
      var kind: Kind :|
        && Registers(kind) && (kind.TransfersIdentified() ==> ConditionallyIdentified in c.states)
        && o == Changed(c.(requests := Create(c.requests, id, kind, now)), true);
      OpensRequest(c, now, id, kind);
      assert Perform(o.after) == o.after;
    }
  }

  lemma UpdateRequestsKeep(c: Contact, now: nat, id: nat, i: UpdateInput)
    requires Good(c, now) && id !in c.requests
    ensures var rs := UpdateRequests(c, now, id, i);
      && OneOpenPerKind(rs) && Evolves(c.requests, rs)
      && forall k :: k in rs ==> rs[k].created < now + 1 && (k in c.requests || !Transferable(rs[k]))
  {
    if i.identifiedDataChanged && i.autoPin3 {
      var again := Identified in c.states || i.identifiedBefore;
      CreateKeeps(c.requests, id, if again then Reidentification else Identification, now);
    }
  }

  lemma UpdateKeeps(c: Contact, now: nat, id: nat, i: UpdateInput)
    requires Good(c, now) && id !in c.requests
    ensures Keeps(c, now, Update(c, now, id, i))
  {
    UpdateRequestsKeep(c, now, id, i);
    var after := Updated(c, now, id, i);
    assert ConditionallyIdentified in c.states ==> ConditionallyIdentified in after.requested;
  }

  /** Whatever an update drops, what a mojeID contact rests on stays requested. */
  lemma UpdateLeavesProtected(c: Contact, now: nat, id: nat, i: UpdateInput)
    requires Good(c, now)
    ensures var o := Update(c, now, id, i);
      o.Changed? ==> {MojeId, ConditionallyIdentified} + PROHIBITIONS <= o.after.requested
  {
    var dropped := UpdateCancels(c.states, i);
    assert dropped !! {MojeId, ConditionallyIdentified} + PROHIBITIONS;
  }

  lemma UpdateValidatedKeeps(c: Contact, now: nat, dataOk: bool)
    requires Good(c, now)
    ensures Keeps(c, now, UpdateValidated(c, now, dataOk))
  {
  }

  lemma UpdateTransferKeeps(c: Contact, now: nat, id: nat, i: TransferInput)
    requires Good(c, now) && id !in c.requests
    ensures Keeps(c, now, UpdateTransfer(c, now, id, i))
  {
    var o := UpdateTransfer(c, now, id, i);
    if o.Changed? {
      var kind := o.after.requests[id].kind;
      CreateKeeps(c.requests, id, kind, now);
      assert o.after.requests == Create(c.requests, id, kind, now);
      assert kind == PrevalidatedTransfer ==> ConditionallyIdentified in o.after.requested;
      assert Good(Perform(o.after), now + 1);
    }
  }

  /** Whichever way a registration is allowed, the contact ends up conditionally identified. */
  lemma RegistrationIdentifies(c: Contact, now: nat, i: RegistrationInput)
    requires Good(c, now) && i.request in c.requests
    requires var r := c.requests[i.request]; r.status == Opened && Registers(r.kind) && c.changed <= r.created
    ensures var states := c.states + RegistrationStates(c.requests[i.request].kind, c.states);
      StatesGood(states) && ConditionallyIdentified in states
  {
    assert c.requests[i.request].kind.TransfersIdentified() ==> Transferable(c.requests[i.request]);
  }

  lemma EvolvesTransitive(a: Requests, b: Requests, c: Requests)
    requires Evolves(a, b) && Evolves(b, c)
    ensures Evolves(a, c)
  {
  }

  function RegisteredRequests(rs: Requests, request: nat, now: nat, id: nat, pin3: bool): Requests
    requires request in rs && Registers(rs[request].kind)
  {
    var answered := SetStatus(rs, request, Resolved);
    if pin3 then Create(answered, id, Identification, now) else answered
  }

  lemma RegisterRequestsKeep(rs: Requests, request: nat, now: nat, id: nat, pin3: bool)
    requires OneOpenPerKind(rs) && request in rs && id !in rs
    requires rs[request].status == Opened && Registers(rs[request].kind)
    requires forall k :: k in rs ==> rs[k].created < now
    ensures var after := RegisteredRequests(rs, request, now, id, pin3);
      && OneOpenPerKind(after) && Evolves(rs, after)
      && forall k :: k in after ==> after[k].created < now + 1
  {
    var answered := SetStatus(rs, request, Resolved);
    SetStatusKeeps(rs, request, Resolved);
    if pin3 {
      CreateKeeps(answered, id, Identification, now);
      EvolvesTransitive(rs, answered, Create(answered, id, Identification, now));
    }
  }

  lemma RegisterForm(c: Contact, now: nat, id: nat, i: RegistrationInput)
    requires c.requested == c.states && i.request in c.requests
    requires Register(c, now, id, i).Changed?
    ensures var r := c.requests[i.request];
      var o := Register(c, now, id, i);
      var states := c.states + RegistrationStates(r.kind, c.states);
      && r.status == Opened && Registers(r.kind) && c.changed <= r.created
      && o.after.states == o.after.requested == states
      && o.after.requests == RegisteredRequests(c.requests, i.request, now, id, i.autoPin3 && Identified !in states)
  {
  }

  lemma RegisterKeeps(c: Contact, now: nat, id: nat, i: RegistrationInput)
    requires Good(c, now) && id !in c.requests && i.request in c.requests
    ensures Keeps(c, now, Register(c, now, id, i))
  {
    var o := Register(c, now, id, i);
    if o.Changed? {
      RegisterForm(c, now, id, i);
      RegistrationIdentifies(c, now, i);
      RegisterRequestsKeep(c.requests, i.request, now, id, i.autoPin3 && Identified !in o.after.states);
    } else if o.FailedAfter? {
      SetStatusKeeps(c.requests, i.request, Invalidated);
    }
  }

  /** A success makes a conditionally identified, protected mojeID contact. */
  lemma RegisterProtects(c: Contact, now: nat, id: nat, i: RegistrationInput)
    requires Good(c, now) && i.request in c.requests
    ensures var o := Register(c, now, id, i);
      o.Changed? ==> {MojeId, ConditionallyIdentified} + PROHIBITIONS <= o.after.states
  {
    if Register(c, now, id, i).Changed? {
      RegisterForm(c, now, id, i);
      RegistrationIdentifies(c, now, i);
    }
  }

  lemma IdentifyKeeps(c: Contact, now: nat, passwordOk: bool)
    requires Good(c, now)
    ensures Keeps(c, now, Identify(c, now, passwordOk))
    ensures !Defensive(Identify(c, now, passwordOk))
  {
    var first := OpenRequest(c.requests, Identification);
    var found := if first.Some? then first else OpenRequest(c.requests, Reidentification);
    if found.Some? {
      SetStatusKeeps(c.requests, found.value, Resolved);
    }
  }

  lemma RequestValidationKeeps(c: Contact, now: nat, id: nat, dataOk: bool)
    requires Good(c, now) && id !in c.requests
    ensures Keeps(c, now, RequestValidation(c, now, id, dataOk))
  {
    OpensRequest(c, now, id, Validation);
  }

  lemma ValidateKeeps(c: Contact, now: nat, id: nat, dataOk: bool)
    requires Good(c, now) && id !in c.requests
    ensures Keeps(c, now, Validate(c, now, id, dataOk))
  {
    var o := Validate(c, now, id, dataOk);
    if o.Changed? {
      var created := Create(c.requests, id, Validation, now);
      CreateKeeps(c.requests, id, Validation, now);
      SetStatusKeeps(created, id, Resolved);
      EvolvesTransitive(c.requests, created, o.after.requests);
      assert o.after.states == c.states + {Validated} == o.after.requested;
    }
  }

  /** A success leaves the contact validated and no validation request opened. */
  lemma ValidateCloses(c: Contact, now: nat, id: nat, dataOk: bool)
    requires Good(c, now)
    ensures var o := Validate(c, now, id, dataOk);
      o.Changed? ==> Validated in o.after.states && !HasOpen(o.after.requests, Validation)
  {
  }

  lemma CancelAccountKeeps(c: Contact, now: nat)
    requires Good(c, now)
    ensures Keeps(c, now, CancelAccount(c, now))
    ensures !Defensive(CancelAccount(c, now))
  {
    InvalidateKeeps(c.requests, {Validation});
    assert MojeId in c.states ==>
      ConditionallyIdentified in c.states * {Validated, Identified, ConditionallyIdentified};
  }

  /** What mojeID set for itself is dropped, and nothing else. */
  lemma CancelAccountDrops(c: Contact, now: nat)
    requires Good(c, now)
    ensures var o := CancelAccount(c, now);
      o.Changed? ==> o.after.requested == c.states - {MojeId, Validated} - PROHIBITIONS
  {
  }

  lemma SendPin3Keeps(c: Contact, now: nat, id: nat, lettersOk: bool)
    requires Good(c, now) && id !in c.requests
    ensures Keeps(c, now, SendPin3(c, now, id, lettersOk))
  {
    var o := SendPin3(c, now, id, lettersOk);
    if o.Changed? {
      var cleared := Invalidate(c.requests, {Identification, Reidentification});
      InvalidateKeeps(c.requests, {Identification, Reidentification});
      var kind := if HasOpen(c.requests, Reidentification) then Reidentification else Identification;
      assert Good(c.(requests := cleared), now);
      OpensRequest(c.(requests := cleared), now, id, kind);
      EvolvesTransitive(c.requests, cleared, o.after.requests);
      assert Perform(o.after) == o.after;
    }
  }

  /** A new PIN3 leaves one identification request of either kind opened: a reidentification if one was opened
      before. */
  lemma SendPin3LeavesOne(c: Contact, now: nat, id: nat, lettersOk: bool)
    requires id !in c.requests
    ensures var o := SendPin3(c, now, id, lettersOk);
      o.Changed? ==>
        var kind := if HasOpen(c.requests, Reidentification) then Reidentification else Identification;
        && IsOpen(o.after.requests, id, kind)
        && forall k ::
             IsOpen(o.after.requests, k, Identification) || IsOpen(o.after.requests, k, Reidentification) ==> k == id
  {
  }

  lemma SetDiscloseFlagsKeeps(c: Contact, now: nat, address: bool, othersDiffer: bool)
    requires Good(c, now)
    ensures Keeps(c, now, SetDiscloseFlags(c, now, address, othersDiffer))
  {
  }

  lemma HideVerifiedKeeps(c: Contact, now: nat)
    requires Good(c, now)
    ensures Keeps(c, now, HideVerified(c, now))
  {
  }
}
