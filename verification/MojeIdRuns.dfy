/**
  Every run of the mojeID server: what holds in every reachable state, and what two-phase commit guarantees however
  the operations interleave.
 */
module MojeIdRuns {
  import opened Options
  import opened MojeIdRequests
  import opened MojeIdContact
  import opened MojeIdInvariants
  import opened RegistryContact
  import opened MojeIdWorld

  /** Two worlds with the same prepared transactions, as far as one transaction that is good in the first can tell. */
  lemma StillGood(w: World, t: World, tid: TransactionId)
    requires tid in w.prepared && PreparedGood(w, tid)
    requires tid in t.prepared && t.prepared[tid] == w.prepared[tid]
    requires t.clock >= w.clock && t.nextRequest >= w.nextRequest && t.nextContact >= w.nextContact
    requires w.prepared[tid].Locking? ==>
      Lookup(t.contacts, w.prepared[tid].contact) == Lookup(w.contacts, w.prepared[tid].contact)
    requires tid in w.storage ==> tid in t.storage && t.storage[tid] == w.storage[tid]
    ensures PreparedGood(t, tid)
  {
  }

  lemma StillExclusive(w: World, t: World)
    requires LocksExclusive(w)
    requires forall tid :: tid in t.prepared ==> tid in w.prepared && t.prepared[tid] == w.prepared[tid]
    ensures LocksExclusive(t)
  {
    forall s, u, id | Locks(t, s, id) && Locks(t, u, id) ensures s == u {
      assert Locks(w, s, id) && Locks(w, u, id);
    }
  }

  lemma TickKeeps(w: World)
    requires Inv(w)
    ensures Inv(Tick(w))
  {
    var t := Tick(w);
    forall tid | tid in t.prepared ensures PreparedGood(t, tid) {
      StillGood(w, t, tid);
    }
    StillExclusive(w, t);
  }

  lemma ApplyKeeps(w: World, id: ContactId, o: Outcome)
    requires Inv(w) && id in w.contacts && !Locked(w, id)
    requires Keeps(w.contacts[id], w.clock, o)
    requires o.Changed? ==> !o.stored
    requires o.Changed? || o.FailedAfter? ==> Numbered(o.after, w.nextRequest + 1)
    ensures Inv(Apply(w, id, o))
  {
    var t := Apply(w, id, o);
    TickKeeps(w);
    if o.Changed? {
      assert Perform(o.after) == o.after;
    }
    forall tid | tid in t.prepared ensures PreparedGood(t, tid) {
      assert w.prepared[tid].Locking? && w.prepared[tid].contact == id ==> Locks(w, tid, id);
      StillGood(w, t, tid);
    }
    StillExclusive(w, t);
  }

  lemma PrepareKeeps(w: World, tid: TransactionId, id: ContactId, o: Outcome)
    requires Inv(w) && !Locked(w, id) && id < w.nextContact
    requires id in w.contacts ==> Keeps(w.contacts[id], w.clock, o)
    requires id !in w.contacts && o.Changed? ==>
      Good(Perform(o.after), w.clock + 1) && (o.after.requested != o.after.states ==> o.stored)
    requires o.Changed? ==> Numbered(o.after, w.nextRequest + 1)
    ensures Inv(Prepare(w, tid, id, o))
  {
    var t := Prepare(w, tid, id, o);
    TickKeeps(w);
    forall u | u in t.prepared ensures PreparedGood(t, u) {
      if u in w.prepared {
        StillGood(w, t, u);
      } else {
        NewlyPreparedIsGood(w, tid, id, o);
      }
    }
    PrepareKeepsExclusive(w, tid, id, o);
  }

  lemma NewlyPreparedIsGood(w: World, tid: TransactionId, id: ContactId, o: Outcome)
    requires id < w.nextContact && tid !in w.prepared && tid in Prepare(w, tid, id, o).prepared
    requires id in w.contacts ==> Keeps(w.contacts[id], w.clock, o)
    requires id !in w.contacts && o.Changed? ==>
      Good(Perform(o.after), w.clock + 1) && (o.after.requested != o.after.states ==> o.stored)
    requires o.Changed? ==> Numbered(o.after, w.nextRequest + 1)
    ensures PreparedGood(Prepare(w, tid, id, o), tid)
  {
  }

  lemma PrepareKeepsExclusive(w: World, tid: TransactionId, id: ContactId, o: Outcome)
    requires LocksExclusive(w) && !Locked(w, id)
    ensures LocksExclusive(Prepare(w, tid, id, o))
  {
    var t := Prepare(w, tid, id, o);
    forall s, u, c | Locks(t, s, c) && Locks(t, u, c) ensures s == u {
      assert s in w.prepared ==> Locks(w, s, c);
      assert u in w.prepared ==> Locks(w, u, c);
    }
  }

  lemma CommitKeeps(w: World, tid: TransactionId)
    requires Inv(w)
    ensures Inv(CommitPrepared(w, tid))
  {
    var t := CommitPrepared(w, tid);
    TickKeeps(w);
    if tid in w.prepared {
      assert PreparedGood(w, tid);
      forall u | u in t.prepared ensures PreparedGood(t, u) {
        if w.prepared[u].Locking? && w.prepared[tid].Locking? && w.prepared[u].contact == w.prepared[tid].contact {
          assert Locks(w, u, w.prepared[tid].contact) && Locks(w, tid, w.prepared[tid].contact);
        }
        StillGood(w, t, u);
      }
      StillExclusive(w, t);
      CommitInstalls(w, tid);
    }
  }

  /** A commit puts the prepared contact in place with its state requests performed, and touches no other contact. */
  lemma CommitInstalls(w: World, tid: TransactionId)
    requires Inv(w) && tid in w.prepared
    ensures var t := CommitPrepared(w, tid);
      && tid !in t.prepared && tid !in t.storage
      && match w.prepared[tid]
         case Empty => t.contacts == w.contacts
         case Locking(id, _, None) => t.contacts == w.contacts - {id}
         case Locking(id, _, Some(after)) => t.contacts == w.contacts[id := Perform(after)]
  {
    assert PreparedGood(w, tid);
    match w.prepared[tid] {
      case Empty =>
      case Locking(id, _, None) =>
      case Locking(id, _, Some(after)) =>
        if tid !in w.storage {
          assert Perform(after) == after;
        }
    }
  }

  lemma RollbackKeeps(w: World, tid: TransactionId)
    requires Inv(w)
    ensures Inv(RollbackPrepared(w, tid))
  {
    var t := RollbackPrepared(w, tid);
    TickKeeps(w);
    forall u | u in t.prepared ensures PreparedGood(t, u) {
      StillGood(w, t, u);
    }
    StillExclusive(w, t);
  }

  /** The operations that work in two phases. */
  lemma PreparingKeeps(c: Contact, now: nat, id: nat, op: Operation)
    requires Good(c, now) && id !in c.requests && Prepares(op)
    ensures Keeps(c, now, PreparedOutcome(c, now, id, op))
    ensures !Defensive(PreparedOutcome(c, now, id, op))
  {
    match op {
      case TransferPrepare(_, _, dataOk) => TransferKeeps(c, now, id, dataOk);
      case UpdatePrepare(_, _, i) => UpdateKeeps(c, now, id, i);
      case UpdateValidatedPrepare(_, _, dataOk) => UpdateValidatedKeeps(c, now, dataOk);
      case UpdateTransferPrepare(_, _, i) => UpdateTransferKeeps(c, now, id, i);
      case CancelAccountPrepare(_, _) => CancelAccountKeeps(c, now);
    }
  }

  lemma PreparingNumbered(c: Contact, now: nat, id: nat, op: Operation)
    requires Numbered(c, id) && Prepares(op)
    ensures var o := PreparedOutcome(c, now, id, op); o.Changed? ==> Numbered(o.after, id + 1)
  {
  }

  /** The operations that commit at once. */
  lemma DirectKeeps(c: Contact, now: nat, id: nat, op: Operation)
    requires Good(c, now) && id !in c.requests && OnContact(op) && !Prepares(op) && !Outside(op)
    ensures Keeps(c, now, DirectOutcome(c, now, id, op))
    ensures !Defensive(DirectOutcome(c, now, id, op))
  {
    match op {
      case ProcessRegistration(_, i) =>
        if i.request in c.requests { RegisterKeeps(c, now, id, i); }
      case ProcessIdentification(_, passwordOk) => IdentifyKeeps(c, now, passwordOk);
      case CreateValidationRequest(_, dataOk) => RequestValidationKeeps(c, now, id, dataOk);
      case ValidateContact(_, dataOk) => ValidateKeeps(c, now, id, dataOk);
      case SendNewPin3(_, lettersOk) => SendPin3Keeps(c, now, id, lettersOk);
      case GetContactState(_) =>
      case SetContactDiscloseFlags(_, address, othersDiffer) => SetDiscloseFlagsKeeps(c, now, address, othersDiffer);
      case UpdaterHideVerified(_) => HideVerifiedKeeps(c, now);
    }
  }

  lemma DirectNumbered(c: Contact, now: nat, id: nat, op: Operation)
    requires Numbered(c, id) && OnContact(op) && !Prepares(op) && !Outside(op)
    ensures var o := DirectOutcome(c, now, id, op);
      && (o.Changed? || o.FailedAfter? ==> Numbered(o.after, id + 1))
      && (o.Changed? ==> !o.stored)
  {
  }

  /** The steps of others. */
  lemma OutsideKeeps(c: Contact, now: nat, id: nat, op: Operation)
    requires Good(c, now) && id !in c.requests && Outside(op)
    ensures Keeps(c, now, OutsideOutcome(c, now, id, op))
    ensures !Defensive(OutsideOutcome(c, now, id, op))
  {
    match op {
      case RegistrarUpdates(_, i) => EppUpdateKeepsExactlyWhen(c, now, i.(bySystem := false));
      case RegistrarTransfers(_, bySystem, byMojeId, passwordOk) =>
        EppTransferKeeps(c, now, bySystem, byMojeId, passwordOk);
      case RegistrarDeletes(_, bySystem) =>
      case CreateConditionalIdentification(_, dataOk) => StartVerificationKeeps(c, now, id, dataOk);
      case ProcessConditionalIdentification(_, i) =>
        if i.request in c.requests { AnswerConditionalKeeps(c, now, id, i); }
      case ProcessPlainIdentification(_, passwordOk, dataOk, hides) =>
        AnswerIdentificationKeeps(c, now, passwordOk, dataOk, hides);
      case ChangesLock(_, lock) => ChangeLockKeeps(c, now, lock);
      case RegistryActs(_, sets, clears, attached) => ForeignKeeps(c, now, sets, clears, attached);
    }
  }

  lemma OutsideNumbered(c: Contact, now: nat, id: nat, op: Operation)
    requires Numbered(c, id) && Outside(op)
    ensures var o := OutsideOutcome(c, now, id, op);
      && (o.Changed? || o.FailedAfter? ==> Numbered(o.after, id + 1))
      && (o.Changed? ==> !o.stored)
  {
  }

  /** Whatever operation it is: the contact stays good and no defensive throw is reached. */
  lemma OutcomeKeeps(w: World, op: Operation)
    requires Inv(w) && OnContact(op) && op.contact in w.contacts
    ensures Keeps(w.contacts[op.contact], w.clock, OutcomeOf(w, op))
    ensures !Defensive(OutcomeOf(w, op))
  {
    var c := w.contacts[op.contact];
    assert w.nextRequest !in c.requests;
    if Prepares(op) {
      PreparingKeeps(c, w.clock, w.nextRequest, op);
    } else if Outside(op) {
      OutsideKeeps(c, w.clock, w.nextRequest, op);
    } else {
      DirectKeeps(c, w.clock, w.nextRequest, op);
    }
  }

  lemma OutcomeNumbered(w: World, op: Operation)
    requires Inv(w) && OnContact(op) && op.contact in w.contacts
    ensures var o := OutcomeOf(w, op);
      && (o.Changed? || (o.FailedAfter? && !Prepares(op)) ==> Numbered(o.after, w.nextRequest + 1))
      && (o.Changed? && !Prepares(op) ==> !o.stored)
  {
    var c := w.contacts[op.contact];
    if Prepares(op) {
      PreparingNumbered(c, w.clock, w.nextRequest, op);
    } else if Outside(op) {
      OutsideNumbered(c, w.clock, w.nextRequest, op);
    } else {
      DirectNumbered(c, w.clock, w.nextRequest, op);
    }
  }

  lemma OnContactKeeps(w: World, op: Operation)
    requires Inv(w) && OnContact(op)
    ensures Inv(Step(w, op))
  {
    if op.contact !in w.contacts || Locked(w, op.contact) {
      TickKeeps(w);
    } else {
      OutcomeKeeps(w, op);
      OutcomeNumbered(w, op);
      BothKeep(w, if Prepares(op) then op.tid else "", op.contact, OutcomeOf(w, op), Prepares(op));
    }
  }

  /** Either way of ending an operation on a contact. */
  lemma BothKeep(w: World, tid: TransactionId, id: ContactId, o: Outcome, prepares: bool)
    requires Inv(w) && id in w.contacts && !Locked(w, id) && Keeps(w.contacts[id], w.clock, o)
    requires o.Changed? || (o.FailedAfter? && !prepares) ==> Numbered(o.after, w.nextRequest + 1)
    requires o.Changed? && !prepares ==> !o.stored
    ensures Inv(if prepares then Prepare(w, tid, id, o) else Apply(w, id, o))
  {
    if prepares {
      PrepareKeeps(w, tid, id, o);
    } else {
      ApplyKeeps(w, id, o);
    }
  }

  lemma StepKeeps(w: World, op: Operation)
    requires Inv(w)
    ensures Inv(Step(w, op))
  {
    if OnContact(op) {
      OnContactKeeps(w, op);
    } else if op.CreatePrepare? {
      CreateStepKeeps(w, op.tid, op.organization, op.dataOk);
    } else if op.RegistrarCreates? {
      RegistrarStepKeeps(w, op.organization);
    } else if op.Commit? {
      CommitKeeps(w, op.tid);
    } else {
      RollbackKeeps(w, op.tid);
    }
  }

  /** Room for one more contact. */
  lemma WiderKeeps(w: World)
    requires Inv(w)
    ensures var wider := w.(nextContact := w.nextContact + 1);
      Inv(wider) && !Locked(wider, w.nextContact) && w.nextContact !in w.contacts
  {
    var wider := w.(nextContact := w.nextContact + 1);
    forall u | u in wider.prepared ensures PreparedGood(wider, u) {
      StillGood(w, wider, u);
    }
    StillExclusive(w, wider);
    forall u ensures !Locks(wider, u, w.nextContact) {
      assert u in w.prepared ==> PreparedGood(w, u);
    }
  }

  lemma CreateStepKeeps(w: World, tid: TransactionId, organization: string, dataOk: bool)
    requires Inv(w)
    ensures Inv(Step(w, CreatePrepare(tid, organization, dataOk)))
  {
    if dataOk {
      var o := Changed(New(w.clock, w.nextRequest, organization), true);
      var wider := w.(nextContact := w.nextContact + 1);
      WiderKeeps(w);
      NewIsGood(w.clock, w.nextRequest, organization);
      assert Perform(o.after) == o.after;
      PrepareKeeps(wider, tid, w.nextContact, o);
      assert Step(w, CreatePrepare(tid, organization, dataOk)) == Prepare(wider, tid, w.nextContact, o);
    } else {
      TickKeeps(w);
    }
  }

  lemma RegistrarStepKeeps(w: World, organization: string)
    requires Inv(w)
    ensures Inv(Step(w, RegistrarCreates(organization)))
  {
    var t := Step(w, RegistrarCreates(organization));
    forall u | u in t.prepared ensures PreparedGood(t, u) {
      assert PreparedGood(w, u);
      StillGood(w, t, u);
    }
    StillExclusive(w, t);
  }

  lemma {:induction false} RunKeeps(w: World, ops: seq<Operation>)
    requires Inv(w)
    ensures Inv(Run(w, ops))
    decreases |ops|
  {
    if ops != [] {
      StepKeeps(w, ops[0]);
      RunKeeps(Step(w, ops[0]), ops[1..]);
    }
  }

  lemma {:induction false} RunAppends(w: World, ops: seq<Operation>, more: seq<Operation>)
    ensures Run(w, ops + more) == Run(Run(w, ops), more)
    decreases |ops|
  {
    if ops == [] {
      assert ops + more == more;
    } else {
      RunAppends(Step(w, ops[0]), ops[1..], more);
      assert (ops + more)[1..] == ops[1..] + more;
    }
  }

  lemma OneMore(ops: seq<Operation>, op: Operation)
    ensures Run(INITIAL, ops + [op]) == Step(Run(INITIAL, ops), op)
  {
    RunAppends(INITIAL, ops, [op]);
    var w := Run(INITIAL, ops);
    assert [op][1..] == [];
    assert Run(Step(w, op), []) == Step(w, op);
  }

  // ---- every reachable state ----

  /** The state flags of every contact in every reachable state, and at most one opened request of each kind. */
  lemma ReachableContacts(ops: seq<Operation>, id: ContactId)
    requires id in Run(INITIAL, ops).contacts
    ensures var c := Run(INITIAL, ops).contacts[id];
      && (MojeId in c.states ==> ConditionallyIdentified in c.states && PROHIBITIONS <= c.states)
      && (Identified in c.states ==> ConditionallyIdentified in c.states)
      && (Validated in c.states ==> MojeId in c.states)
      && TransfersGood(c)
      && OneOpenPerKind(c.requests)
      && c.requested == c.states
  {
    RunKeeps(INITIAL, ops);
  }

  /** In no reachable state does an operation end in "missing state", "not protected" or "bad mojeID contact". */
  lemma DefensiveThrowsUnreachable(ops: seq<Operation>, op: Operation)
    ensures !Defensive(OutcomeOf(Run(INITIAL, ops), op))
  {
    RunKeeps(INITIAL, ops);
    if OnContact(op) && op.contact in Run(INITIAL, ops).contacts {
      OutcomeKeeps(Run(INITIAL, ops), op);
    }
  }

  /** The contact with one more opened request, of a kind process_registration_request knows. */
  ghost predicate OpensExactly(c: Contact, after: Contact, id: nat, kind: Kind, now: nat) {
    Registers(kind) && after == c.(requests := Create(c.requests, id, kind, now))
  }

  /** In every reachable state the branches of transfer_contact_prepare cover the contact: success opens one request. */
  lemma TransferAlwaysOpensOne(ops: seq<Operation>, tid: TransactionId, id: ContactId, dataOk: bool)
    ensures var w := Run(INITIAL, ops);
      var o := OutcomeOf(w, TransferPrepare(tid, id, dataOk));
      o.Changed? ==>
        && id in w.contacts && o.stored
        && exists kind: Kind :: OpensExactly(w.contacts[id], o.after, w.nextRequest, kind, w.clock)
  {
    var w := Run(INITIAL, ops);
    RunKeeps(INITIAL, ops);
    if id in w.contacts {
      var c := w.contacts[id];
      var o := OutcomeOf(w, TransferPrepare(tid, id, dataOk));
      TransferOpensOne(c, w.clock, w.nextRequest, dataOk);
      if o.Changed? {
        var kind: Kind :|
          Registers(kind) && o == Changed(c.(requests := Create(c.requests, w.nextRequest, kind, w.clock)), true);
        assert OpensExactly(c, o.after, w.nextRequest, kind, w.clock);
      }
    }
  }

  // ---- two-phase commit ----

  predicate Ends(op: Operation, tid: TransactionId) {
    op == Commit(tid) || op == Rollback(tid)
  }

  /** The transaction map names only transactions still between their phases; none left means it is empty. */
  lemma TransactionMapIsOutstanding(ops: seq<Operation>)
    ensures var w := Run(INITIAL, ops);
      w.storage.Keys <= w.prepared.Keys && (w.prepared == map[] ==> w.storage == map[])
  {
    RunKeeps(INITIAL, ops);
  }

  /** A transaction as it was, with what the map held for it. */
  ghost predicate Outstanding(w: World, t: World, tid: TransactionId)
    requires tid in w.prepared
  {
    && tid in t.prepared && t.prepared[tid] == w.prepared[tid]
    && (tid in w.storage ==> tid in t.storage && t.storage[tid] == w.storage[tid])
  }

  /** Until its own commit or rollback, no operation changes a prepared transaction or what the map holds for it. */
  lemma {:induction false} PreparedStays(w: World, ops: seq<Operation>, tid: TransactionId)
    requires Inv(w) && tid in w.prepared
    requires forall k :: 0 <= k < |ops| ==> !Ends(ops[k], tid)
    ensures var t := Run(w, ops);
      Inv(t) && Outstanding(w, t, tid)
    decreases |ops|
  {
    if ops != [] {
      StepKeeps(w, ops[0]);
      StaysOneStep(w, ops[0], tid);
      PreparedStays(Step(w, ops[0]), ops[1..], tid);
    }
  }

  lemma StaysOneStep(w: World, op: Operation, tid: TransactionId)
    requires Inv(w) && tid in w.prepared && !Ends(op, tid)
    ensures Outstanding(w, Step(w, op), tid)
  {
    if op.CreatePrepare? {
      PrepareFrame(w, op.tid, w.nextContact, Changed(New(w.clock, w.nextRequest, op.organization), true), tid);
    } else if OnContact(op) {
      StaysOnOperation(w, op, tid);
    }
  }

  lemma StaysOnOperation(w: World, op: Operation, tid: TransactionId)
    requires tid in w.prepared && OnContact(op)
    ensures Outstanding(w, Step(w, op), tid)
  {
    BothFrames(w, if Prepares(op) then op.tid else "", op.contact, OutcomeOf(w, op), tid);
  }

  lemma ApplyFrame(w: World, id: ContactId, o: Outcome)
    ensures var t := Apply(w, id, o);
      && t.prepared == w.prepared && t.storage == w.storage && t.nextContact == w.nextContact
      && (id in w.contacts ==> t.contacts.Keys == if o.Deleted? then w.contacts.Keys - {id} else w.contacts.Keys)
      && (forall other :: other in w.contacts && other != id ==> t.contacts[other] == w.contacts[other])
      && (o.Changed? || o.FailedAfter? ==> t.contacts[id] == o.after)
  {
  }

  lemma PrepareFrame(w: World, tid: TransactionId, id: ContactId, o: Outcome, other: TransactionId)
    ensures var t := Prepare(w, tid, id, o);
      && t.contacts == w.contacts
      && (other in w.prepared ==> Outstanding(w, t, other))
      && (tid !in w.prepared && tid in t.prepared ==>
            || t.prepared[tid].Empty?
            || (t.prepared[tid].contact == id && t.prepared[tid].before == Lookup(w.contacts, id)))
  {
  }

  lemma BothFrames(w: World, tid: TransactionId, id: ContactId, o: Outcome, other: TransactionId)
    requires other in w.prepared
    ensures Outstanding(w, Prepare(w, tid, id, o), other)
    ensures var t := Apply(w, id, o); t.prepared == w.prepared && t.storage == w.storage
  {
    PrepareFrame(w, tid, id, o, other);
    ApplyFrame(w, id, o);
  }

  predicate FirstPhase(op: Operation) {
    Prepares(op) || op.CreatePrepare?
  }

  lemma FirstPhaseLeavesRegistry(w: World, op: Operation)
    requires FirstPhase(op) && op.tid !in w.prepared && op.tid in Step(w, op).prepared
    ensures Step(w, op).contacts == w.contacts
    ensures var p := Step(w, op).prepared[op.tid]; p.Locking? ==> p.before == Lookup(w.contacts, p.contact)
  {
    if Prepares(op) {
      PrepareFrame(w, op.tid, op.contact, OutcomeOf(w, op), op.tid);
    } else {
      PrepareFrame(w, op.tid, w.nextContact, Changed(New(w.clock, w.nextRequest, op.organization), true), op.tid);
    }
  }

  /** A first phase under an unused identifier holds the contact with what it will be, and remembers it if asked to; a
      used identifier, or a failure, prepares nothing. */
  ghost predicate TakesHold(w: World, t: World, tid: TransactionId, id: ContactId, o: Outcome) {
    && t.contacts == w.contacts
    && (tid in w.prepared || o.Failed? || o.FailedAfter? ==> t.prepared == w.prepared)
    && (o.Failed? || o.FailedAfter? ==> t.storage == w.storage)
    && (tid !in w.prepared && !o.Failed? && !o.FailedAfter? ==>
          && t.prepared.Keys == w.prepared.Keys + {tid}
          && (forall other :: other in w.prepared ==> t.prepared[other] == w.prepared[other])
          && t.storage == (if o.Changed? && o.stored then w.storage[tid := id] else w.storage)
          && (o.Nothing? <==> t.prepared[tid].Empty?)
          && (!o.Nothing? ==>
                t.prepared[tid] == Locking(id, Lookup(w.contacts, id), if o.Changed? then Some(o.after) else None)))
  }

  lemma PrepareTakesHold(w: World, tid: TransactionId, id: ContactId, o: Outcome)
    requires StorageGood(w)
    ensures TakesHold(w, Prepare(w, tid, id, o), tid, id, o)
  {
  }

  /** What the two ends do to a world with a prepared transaction. */
  ghost predicate EndsProperly(original: World, between: World, tid: TransactionId, p: Prepared) {
    var rolledBack := Step(between, Rollback(tid));
    var committed := Step(between, Commit(tid));
    && rolledBack.contacts == between.contacts
    && tid !in rolledBack.prepared && tid !in rolledBack.storage
    && tid !in committed.prepared && tid !in committed.storage
    && match p
       case Empty => committed.contacts == between.contacts
       case Locking(id, _, after) =>
         && Lookup(rolledBack.contacts, id) == Lookup(original.contacts, id)
         && match after
            case None => committed.contacts == between.contacts - {id}
            case Some(c) =>
              committed.contacts == between.contacts[id := Perform(c)] && Perform(Perform(c)) == Perform(c)
  }

  lemma OutstandingEndsProperly(original: World, between: World, tid: TransactionId)
    requires Inv(between) && tid in between.prepared
    requires between.prepared[tid].Locking? ==>
      between.prepared[tid].before == Lookup(original.contacts, between.prepared[tid].contact)
    ensures EndsProperly(original, between, tid, between.prepared[tid])
  {
    assert PreparedGood(between, tid);
    CommitInstalls(between, tid);
  }

  /**
    A prepare, any operations in between, and one end. Preparing leaves the registry alone; at the end the contact is
    still what it was before the prepare, so rollback restores it, and commit makes it the prepared contact with all its
    state requests performed, which performing them again would not change.
   */
  lemma TwoPhaseCommit(w: World, op: Operation, ops: seq<Operation>)
    requires Inv(w) && FirstPhase(op) && op.tid !in w.prepared && op.tid in Step(w, op).prepared
    requires forall k :: 0 <= k < |ops| ==> !Ends(ops[k], op.tid)
    ensures Step(w, op).contacts == w.contacts
    ensures EndsProperly(w, Run(Step(w, op), ops), op.tid, Step(w, op).prepared[op.tid])
  {
    StepKeeps(w, op);
    FirstPhaseLeavesRegistry(w, op);
    PreparedStays(Step(w, op), ops, op.tid);
    OutstandingEndsProperly(w, Run(Step(w, op), ops), op.tid);
  }

  // ---- public requests over whole runs ----

  /** Deleted contacts never come back. */
  ghost predicate Gone(w: World, id: ContactId) {
    id < w.nextContact && id !in w.contacts && !Locked(w, id)
  }

  lemma {:induction false} GoneStays(w: World, ops: seq<Operation>, id: ContactId)
    requires Inv(w) && Gone(w, id)
    ensures Gone(Run(w, ops), id)
    decreases |ops|
  {
    if ops != [] {
      StepKeeps(w, ops[0]);
      GoneOneStep(w, ops[0], id);
      GoneStays(Step(w, ops[0]), ops[1..], id);
    }
  }

  lemma PrepareKeepsGone(w: World, tid: TransactionId, other: ContactId, o: Outcome, id: ContactId)
    requires Gone(w, id) && other != id
    ensures Gone(Prepare(w, tid, other, o), id)
  {
    var t := Prepare(w, tid, other, o);
    forall u ensures !Locks(t, u, id) {
      assert !Locks(w, u, id);
    }
  }

  lemma LocksCarryOver(w: World, t: World, id: ContactId)
    requires forall tid :: tid in t.prepared ==> tid in w.prepared && t.prepared[tid] == w.prepared[tid]
    requires !Locked(w, id)
    ensures !Locked(t, id)
  {
    forall u ensures !Locks(t, u, id) {
      assert !Locks(w, u, id);
    }
  }

  /** Both kinds of step on a contact, whatever the outcome. */
  lemma GoneOnContact(w: World, tid: TransactionId, other: ContactId, o: Outcome, id: ContactId)
    requires Gone(w, id) && other in w.contacts
    ensures Gone(Prepare(w, tid, other, o), id) && Gone(Apply(w, other, o), id)
  {
    PrepareKeepsGone(w, tid, other, o, id);
    ApplyFrame(w, other, o);
    LocksCarryOver(w, Apply(w, other, o), id);
  }

  lemma GoneOnCreate(w: World, tid: TransactionId, o: Outcome, id: ContactId)
    requires Gone(w, id)
    ensures Gone(Prepare(w, tid, w.nextContact, o).(nextContact := w.nextContact + 1), id)
  {
    var t := Prepare(w, tid, w.nextContact, o);
    PrepareKeepsGone(w, tid, w.nextContact, o, id);
    LocksCarryOver(t, t.(nextContact := w.nextContact + 1), id);
  }

  lemma GoneOnEnd(w: World, tid: TransactionId, id: ContactId)
    requires Inv(w) && Gone(w, id)
    ensures Gone(CommitPrepared(w, tid), id) && Gone(RollbackPrepared(w, tid), id)
  {
    assert !Locks(w, tid, id);
    if tid in w.prepared {
      CommitInstalls(w, tid);
    }
    LocksCarryOver(w, CommitPrepared(w, tid), id);
    LocksCarryOver(w, RollbackPrepared(w, tid), id);
  }

  lemma GoneOneStep(w: World, op: Operation, id: ContactId)
    requires Inv(w) && Gone(w, id)
    ensures Gone(Step(w, op), id)
  {
    LocksCarryOver(w, Tick(w), id);
    if op.CreatePrepare? {
      GoneOnCreate(w, op.tid, Changed(New(w.clock, w.nextRequest, op.organization), true), id);
    } else if op.RegistrarCreates? {
      LocksCarryOver(w, Step(w, op), id);
    } else if op.Commit? || op.Rollback? {
      GoneOnEnd(w, op.tid, id);
    } else {
      GoneOnOperation(w, op, id);
    }
  }

  lemma GoneOnOperation(w: World, op: Operation, id: ContactId)
    requires Gone(w, id) && OnContact(op)
    ensures Gone(Step(w, op), id)
  {
    LocksCarryOver(w, Tick(w), id);
    if op.contact in w.contacts {
      GoneOnContact(w, if Prepares(op) then op.tid else "", op.contact, OutcomeOf(w, op), id);
    }
  }

  lemma CommitEvolves(w: World, tid: TransactionId, id: ContactId)
    requires Inv(w) && id in w.contacts
    ensures var t := CommitPrepared(w, tid);
      if id in t.contacts then Evolves(w.contacts[id].requests, t.contacts[id].requests) else Gone(t, id)
  {
    var t := CommitPrepared(w, tid);
    if tid in w.prepared {
      CommitInstalls(w, tid);
      assert PreparedGood(w, tid);
      if id !in t.contacts {
        forall u ensures !Locks(t, u, id) {
          assert Locks(w, tid, id);
          assert Locks(t, u, id) ==> Locks(w, u, id);
        }
      }
    }
  }

  lemma ApplyEvolves(w: World, id: ContactId, o: Outcome, other: ContactId)
    requires id in w.contacts && Keeps(w.contacts[id], w.clock, o) && other in w.contacts
    requires Inv(w) && !Locked(w, id)
    ensures var t := Apply(w, id, o);
      if other in t.contacts then Evolves(w.contacts[other].requests, t.contacts[other].requests) else Gone(t, other)
  {
    LocksCarryOver(w, Apply(w, id, o), id);
  }

  lemma StepEvolves(w: World, op: Operation, id: ContactId)
    requires Inv(w) && id in w.contacts
    ensures var t := Step(w, op);
      if id in t.contacts then Evolves(w.contacts[id].requests, t.contacts[id].requests) else Gone(t, id)
  {
    if op.Commit? {
      CommitEvolves(w, op.tid, id);
    } else if FirstPhase(op) {
      PreparesOrTicks(w, op);
    } else if OnContact(op) {
      AppliedEvolves(w, op, id);
    }
  }

  lemma AppliedEvolves(w: World, op: Operation, id: ContactId)
    requires Inv(w) && id in w.contacts && OnContact(op) && !Prepares(op)
    ensures var t := Step(w, op);
      if id in t.contacts then Evolves(w.contacts[id].requests, t.contacts[id].requests) else Gone(t, id)
  {
    if op.contact in w.contacts && !Locked(w, op.contact) {
      OutcomeKeeps(w, op);
      ApplyEvolves(w, op.contact, OutcomeOf(w, op), id);
    }
  }

  lemma PreparesOrTicks(w: World, op: Operation)
    requires FirstPhase(op)
    ensures Step(w, op).contacts == w.contacts
  {
    if Prepares(op) {
      PrepareFrame(w, op.tid, op.contact, OutcomeOf(w, op), op.tid);
    } else {
      PrepareFrame(w, op.tid, w.nextContact, Changed(New(w.clock, w.nextRequest, op.organization), true), op.tid);
    }
  }

  /** Over any run, a request that is not opened keeps its status for good, and no request is lost with its contact
      alive. */
  lemma {:induction false} RequestsEvolve(w: World, ops: seq<Operation>, id: ContactId)
    requires Inv(w) && id in w.contacts
    ensures var t := Run(w, ops);
      if id in t.contacts then Evolves(w.contacts[id].requests, t.contacts[id].requests) else Gone(t, id)
    decreases |ops|
  {
    if ops != [] {
      var next := Step(w, ops[0]);
      StepKeeps(w, ops[0]);
      StepEvolves(w, ops[0], id);
      if id in next.contacts {
        RequestsEvolve(next, ops[1..], id);
        var t := Run(w, ops);
        if id in t.contacts {
          EvolvesTransitive(w.contacts[id].requests, next.contacts[id].requests, t.contacts[id].requests);
        }
      } else {
        GoneStays(next, ops[1..], id);
      }
    }
  }
}
