/**
  Where the states that vouch for a contact come from: over every run, whoever has one has earned it.
 */
module MojeIdOrigins {
  import opened Options
  import opened MojeIdRequests
  import opened MojeIdContact
  import opened MojeIdInvariants
  import opened MojeIdEffects
  import opened RegistryContact
  import opened MojeIdWorld
  import opened MojeIdRuns

  const VOUCHING := {MojeId, ConditionallyIdentified, Identified, Validated}

  /** The operation gives the state to a contact that met its conditions, a password among them unless mojeID itself
      validates. */
  ghost predicate Earns(c: Contact, op: Operation, s: State) {
    || (op.ProcessRegistration? && CanRegister(c, op.registration)
        && GainedByRegistration(s, c.requests[op.registration.request].kind))
    || (s == ConditionallyIdentified && op.ProcessConditionalIdentification? && op.answer.passwordOk
        && IsOpen(c.requests, op.answer.request, PlainConditionalIdentification))
    || (s == Identified && op.ProcessIdentification? && op.passwordOk && MojeId in c.states
        && (HasOpen(c.requests, Identification) || HasOpen(c.requests, Reidentification)))
    || (s == Identified && op.ProcessPlainIdentification? && op.passwordOk
        && HasOpen(c.requests, PlainIdentification))
    || (s == Validated && op.ValidateContact? && op.dataOk && MojeId in c.states)
  }

  /** First phases take states away and give none. */
  lemma PreparingGivesNothing(c: Contact, now: nat, id: nat, op: Operation)
    requires Good(c, now) && Prepares(op)
    ensures var o := PreparedOutcome(c, now, id, op); o.Changed? ==> o.after.requested <= c.states
  {
    match op {
      case TransferPrepare(_, _, dataOk) => TransferEffect(c, now, id, dataOk);
      case UpdatePrepare(_, _, i) => UpdateEffect(c, now, id, i);
      case UpdateValidatedPrepare(_, _, dataOk) => UpdateValidatedEffect(c, now, dataOk);
      case UpdateTransferPrepare(_, _, i) => UpdateTransferEffect(c, now, id, i);
      case CancelAccountPrepare(_, _) => CancelAccountEffect(c, now);
    }
  }

  ghost predicate GivesOnlyEarned(c: Contact, op: Operation, after: Contact) {
    forall s :: s in VOUCHING && s in after.states && s !in c.states ==> Earns(c, op, s)
  }

  lemma DirectGives(c: Contact, now: nat, id: nat, op: Operation)
    requires Good(c, now) && id !in c.requests && OnContact(op) && !Prepares(op) && !Outside(op)
    ensures var o := DirectOutcome(c, now, id, op); o.Changed? || o.FailedAfter? ==> GivesOnlyEarned(c, op, o.after)
  {
    match op {
      case ProcessRegistration(_, i) =>
        if i.request in c.requests { RegisterEffect(c, now, id, i); }
      case ProcessIdentification(_, passwordOk) => IdentifyEffect(c, now, passwordOk);
      case CreateValidationRequest(_, dataOk) => RequestValidationEffect(c, now, id, dataOk);
      case ValidateContact(_, dataOk) => ValidateEffect(c, now, id, dataOk);
      case SendNewPin3(_, lettersOk) => SendPin3Effect(c, now, id, lettersOk);
      case GetContactState(_) =>
      case SetContactDiscloseFlags(_, address, othersDiffer) => SetDiscloseFlagsEffect(c, now, address, othersDiffer);
      case UpdaterHideVerified(_) =>
    }
  }

  lemma OutsideGives(c: Contact, now: nat, id: nat, op: Operation)
    requires Good(c, now) && id !in c.requests && Outside(op)
    ensures var o := OutsideOutcome(c, now, id, op); o.Changed? || o.FailedAfter? ==> GivesOnlyEarned(c, op, o.after)
  {
    match op {
      case RegistrarUpdates(_, i) => EppUpdateEffect(c, now, i.(bySystem := false));
      case RegistrarTransfers(_, bySystem, byMojeId, passwordOk) =>
      case RegistrarDeletes(_, _) =>
      case CreateConditionalIdentification(_, dataOk) => StartVerificationEffect(c, now, id, dataOk);
      case ProcessConditionalIdentification(_, i) =>
        if i.request in c.requests { AnswerConditionalEffect(c, now, id, i); }
      case ProcessPlainIdentification(_, passwordOk, dataOk, hides) =>
        AnswerIdentificationEffect(c, now, passwordOk, dataOk, hides);
      case ChangesLock(_, lock) => ChangeLockEffect(c, now, lock);
      case RegistryActs(_, sets, clears, attached) => ForeignEffect(c, sets, clears, attached);
    }
  }

  // ---- over a run ----

  /** The operation at that place of the run gave the state to the contact. */
  ghost predicate EarnedAt(ops: seq<Operation>, k: nat, id: ContactId, s: State)
    requires k < |ops|
  {
    var w := Run(INITIAL, ops[..k]);
    && OnContact(ops[k]) && ops[k].contact == id && id in w.contacts && !Locked(w, id)
    && s !in w.contacts[id].states && Earns(w.contacts[id], ops[k], s)
  }

  ghost predicate Earned(ops: seq<Operation>, id: ContactId, s: State) {
    exists k :: 0 <= k < |ops| && EarnedAt(ops, k, id, s)
  }

  lemma EarnedStays(ops: seq<Operation>, op: Operation, id: ContactId, s: State)
    requires Earned(ops, id, s)
    ensures Earned(ops + [op], id, s)
  {
    var k :| 0 <= k < |ops| && EarnedAt(ops, k, id, s);
    assert (ops + [op])[..k] == ops[..k];
    assert EarnedAt(ops + [op], k, id, s);
  }

  ghost predicate AllEarned(ops: seq<Operation>, id: ContactId, states: set<State>) {
    forall s :: s in VOUCHING && s in states ==> Earned(ops, id, s)
  }

  ghost predicate WorldEarned(w: World, ops: seq<Operation>) {
    && (forall id :: id in w.contacts ==> AllEarned(ops, id, w.contacts[id].states))
    && (forall tid :: tid in w.prepared ==> PreparedEarned(w.prepared[tid], ops))
  }

  ghost predicate PreparedEarned(p: Prepared, ops: seq<Operation>) {
    p.Locking? && p.after.Some? ==> AllEarned(ops, p.contact, p.after.value.requested)
  }

  lemma OneMoreOperation(w: World, ops: seq<Operation>, op: Operation)
    requires WorldEarned(w, ops)
    ensures WorldEarned(w, ops + [op])
  {
    forall id, s | s in VOUCHING && Earned(ops, id, s) ensures Earned(ops + [op], id, s) {
      EarnedStays(ops, op, id, s);
    }
  }

  /** What the operation gives is earned by it; what the contact had was earned before. */
  lemma GivenIsEarned(ops: seq<Operation>, op: Operation, c: Contact, after: Contact)
    requires OnContact(op)
    requires var w := Run(INITIAL, ops);
      op.contact in w.contacts && !Locked(w, op.contact) && w.contacts[op.contact] == c
    requires GivesOnlyEarned(c, op, after) && AllEarned(ops + [op], op.contact, c.states)
    ensures AllEarned(ops + [op], op.contact, after.states)
  {
    var more := ops + [op];
    assert more[..|ops|] == ops;
    forall s | s in VOUCHING && s in after.states ensures Earned(more, op.contact, s) {
      if s !in c.states {
        assert EarnedAt(more, |ops|, op.contact, s);
      }
    }
  }

  lemma AppliedEarned(ops: seq<Operation>, op: Operation)
    requires var w := Run(INITIAL, ops);
      && Inv(w) && WorldEarned(w, ops + [op])
      && OnContact(op) && !Prepares(op) && op.contact in w.contacts && !Locked(w, op.contact)
    ensures var w := Run(INITIAL, ops); WorldEarned(Apply(w, op.contact, OutcomeOf(w, op)), ops + [op])
  {
    var w := Run(INITIAL, ops);
    var c := w.contacts[op.contact];
    var o := OutcomeOf(w, op);
    assert w.nextRequest !in c.requests;
    if Outside(op) {
      OutsideGives(c, w.clock, w.nextRequest, op);
    } else {
      DirectGives(c, w.clock, w.nextRequest, op);
    }
    if o.Changed? || o.FailedAfter? {
      GivenIsEarned(ops, op, c, o.after);
    }
    ApplyFrame(w, op.contact, o);
  }

  lemma PreparedStepEarned(w: World, ops: seq<Operation>, tid: TransactionId, id: ContactId, o: Outcome)
    requires StorageGood(w) && WorldEarned(w, ops)
    requires o.Changed? ==> AllEarned(ops, id, o.after.requested)
    ensures WorldEarned(Prepare(w, tid, id, o), ops)
  {
    PrepareTakesHold(w, tid, id, o);
  }

  lemma EndEarned(w: World, ops: seq<Operation>, tid: TransactionId)
    requires Inv(w) && WorldEarned(w, ops)
    ensures WorldEarned(CommitPrepared(w, tid), ops) && WorldEarned(RollbackPrepared(w, tid), ops)
  {
    if tid in w.prepared {
      assert PreparedEarned(w.prepared[tid], ops);
      CommitInstalls(w, tid);
    }
  }

  lemma StepEarned(ops: seq<Operation>, op: Operation)
    requires Inv(Run(INITIAL, ops)) && WorldEarned(Run(INITIAL, ops), ops)
    ensures WorldEarned(Step(Run(INITIAL, ops), op), ops + [op])
  {
    var w := Run(INITIAL, ops);
    OneMoreOperation(w, ops, op);
    if op.Commit? || op.Rollback? {
      EndEarned(w, ops + [op], op.tid);
    } else if op.CreatePrepare? {
      var o := Changed(New(w.clock, w.nextRequest, op.organization), true);
      PreparedStepEarned(w, ops + [op], op.tid, w.nextContact, o);
    } else if OnContact(op) {
      OnContactEarned(ops, op);
    }
  }

  lemma PreparesEarned(w: World, ops: seq<Operation>, op: Operation)
    requires Inv(w) && WorldEarned(w, ops) && Prepares(op) && op.contact in w.contacts
    ensures WorldEarned(Prepare(w, op.tid, op.contact, OutcomeOf(w, op)), ops)
  {
    PreparingGivesNothing(w.contacts[op.contact], w.clock, w.nextRequest, op);
    PreparedStepEarned(w, ops, op.tid, op.contact, OutcomeOf(w, op));
  }

  lemma StepOnContact(w: World, op: Operation)
    requires OnContact(op)
    ensures Step(w, op) ==
      if op.contact !in w.contacts || Locked(w, op.contact) then Tick(w)
      else if Prepares(op) then Prepare(w, op.tid, op.contact, OutcomeOf(w, op))
      else Apply(w, op.contact, OutcomeOf(w, op))
  {
  }

  lemma OnContactEarned(ops: seq<Operation>, op: Operation)
    requires Inv(Run(INITIAL, ops)) && WorldEarned(Run(INITIAL, ops), ops + [op]) && OnContact(op)
    ensures WorldEarned(Step(Run(INITIAL, ops), op), ops + [op])
  {
    var w := Run(INITIAL, ops);
    StepOnContact(w, op);
    if op.contact !in w.contacts || Locked(w, op.contact) {
      TickEarned(w, ops + [op]);
    } else if Prepares(op) {
      PreparesEarned(w, ops + [op], op);
    } else {
      AppliedEarned(ops, op);
    }
  }

  lemma TickEarned(w: World, ops: seq<Operation>)
    requires WorldEarned(w, ops)
    ensures WorldEarned(Tick(w), ops)
  {
  }

  lemma {:induction false} RunEarned(ops: seq<Operation>)
    ensures WorldEarned(Run(INITIAL, ops), ops)
  {
    if ops != [] {
      var front, op := ops[..|ops| - 1], ops[|ops| - 1];
      assert ops == front + [op];
      RunKeeps(INITIAL, front);
      RunEarned(front);
      StepEarned(front, op);
      OneMore(front, op);
    }
  }

  /**
    Over every run: a mojeID contact was registered with the password of a request that counted, an identified one
    answered a request with its password, and a validated one was validated by mojeID or registered prevalidated.
   */
  lemma StatesAreEarned(ops: seq<Operation>, id: ContactId, s: State)
    requires id in Run(INITIAL, ops).contacts && s in VOUCHING && s in Run(INITIAL, ops).contacts[id].states
    ensures exists k :: 0 <= k < |ops| && EarnedAt(ops, k, id, s)
  {
    RunEarned(ops);
  }
}
