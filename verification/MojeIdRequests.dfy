/**
  Public requests of one contact. Creating or resolving a request invalidates the opened requests of other types
  according to fixed tables; the two plain types belong to contact verification, and mojeID only ever invalidates them.
 */
module MojeIdRequests {

  datatype Kind =
    | ConditionalIdentification
    | Identification
    | Reidentification
    | Validation
    | ConditionallyIdentifiedTransfer
    | IdentifiedTransfer
    | PrevalidatedUnidentifiedTransfer
    | PrevalidatedTransfer
    | PlainConditionalIdentification
    | PlainIdentification
  {
    predicate InvalidationOnly() {
      PlainConditionalIdentification? || PlainIdentification?
    }

    /** Processing such a request relies on the contact being conditionally identified already. */
    predicate TransfersIdentified() {
      ConditionallyIdentifiedTransfer? || IdentifiedTransfer? || PrevalidatedTransfer?
    }
  }

  datatype Status = Opened | Resolved | Invalidated

  datatype Request = Request(kind: Kind, status: Status, created: nat)

  type Requests = map<nat, Request>

  function CancelledOnCreate(kind: Kind): set<Kind>
    requires !kind.InvalidationOnly()
  {
    match kind
    case ConditionalIdentification => {ConditionalIdentification}
    case Identification => {Identification, PlainIdentification}
    case Reidentification => {Reidentification}
    case Validation => {Validation}
    case ConditionallyIdentifiedTransfer => {ConditionallyIdentifiedTransfer}
    case IdentifiedTransfer => {IdentifiedTransfer}
    case PrevalidatedUnidentifiedTransfer =>
      {PrevalidatedUnidentifiedTransfer, PlainConditionalIdentification, ConditionalIdentification}
    case PrevalidatedTransfer => {PrevalidatedTransfer, ConditionallyIdentifiedTransfer, IdentifiedTransfer}
  }

  function CancelledOnUpdate(kind: Kind, before: Status, after: Status): set<Kind>
    requires kind.InvalidationOnly() ==> before == Opened && after == Invalidated
  {
    if before == Opened && after == Resolved then
      match kind
      case ConditionalIdentification => {PlainConditionalIdentification}
      case ConditionallyIdentifiedTransfer => {PlainIdentification, PrevalidatedTransfer}
      case _ => {}
    else {}
  }

  /** Invalidates the opened requests of the given kinds. */
  function Invalidate(rs: Requests, kinds: set<Kind>): Requests {
    map id | id in rs ::
      if rs[id].status == Opened && rs[id].kind in kinds then rs[id].(status := Invalidated) else rs[id]
  }

  function Create(rs: Requests, id: nat, kind: Kind, now: nat): Requests
    requires !kind.InvalidationOnly()
  {
    Invalidate(rs, CancelledOnCreate(kind))[id := Request(kind, Opened, now)]
  }

  function SetStatus(rs: Requests, id: nat, status: Status): Requests
    requires id in rs && !rs[id].kind.InvalidationOnly()
  {
    var r := rs[id];
    Invalidate(rs[id := r.(status := status)], CancelledOnUpdate(r.kind, r.status, status))
  }

  predicate IsOpen(rs: Requests, id: nat, kind: Kind) {
    id in rs && rs[id].kind == kind && rs[id].status == Opened
  }

  ghost predicate HasOpen(rs: Requests, kind: Kind) {
    exists id :: IsOpen(rs, id, kind)
  }

  ghost predicate OneOpenPerKind(rs: Requests) {
    forall i, j :: i in rs && j in rs && i != j && rs[i].status == Opened == rs[j].status ==> rs[i].kind != rs[j].kind
  }

  /** A history step: nothing disappears, only opened requests change, and only their status. */
  ghost predicate Evolves(rs: Requests, rs': Requests) {
    forall id :: id in rs ==>
      id in rs' && rs'[id] == rs[id].(status := rs'[id].status)
      && (rs'[id].status != rs[id].status ==> rs[id].status == Opened)
  }

  lemma CreateKeeps(rs: Requests, id: nat, kind: Kind, now: nat)
    requires OneOpenPerKind(rs) && id !in rs && !kind.InvalidationOnly()
    ensures OneOpenPerKind(Create(rs, id, kind, now))
    ensures Evolves(rs, Create(rs, id, kind, now))
    ensures IsOpen(Create(rs, id, kind, now), id, kind)
  {
    assert kind in CancelledOnCreate(kind);
  }

  lemma InvalidateKeeps(rs: Requests, kinds: set<Kind>)
    requires OneOpenPerKind(rs)
    ensures OneOpenPerKind(Invalidate(rs, kinds))
    ensures Evolves(rs, Invalidate(rs, kinds))
  {
  }

  lemma SetStatusKeeps(rs: Requests, id: nat, status: Status)
    requires OneOpenPerKind(rs) && id in rs && !rs[id].kind.InvalidationOnly()
    requires rs[id].status == Opened != status
    ensures OneOpenPerKind(SetStatus(rs, id, status))
    ensures Evolves(rs, SetStatus(rs, id, status))
  {
  }
}
