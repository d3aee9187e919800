/**
  When exactly the three operations of automatic keyset management accept a request, and what a success leaves in the
  registry, told without the operations themselves.
 */
module KeysetConditions {
  import opened Options
  import opened DnsKeys
  import opened KeysetPrefix
  import opened KeysetManagement

  /** A domain of a zone that is managed. */
  predicate Serves(r: Registry, c: Config, id: DomainId) {
    id in r.domains && r.domains[id].zone in c.zones
  }

  /** One to ten keys, each of them valid; a request to turn off needs no more than its one special key. */
  predicate KeysAcceptable(w: Wish) {
    1 <= |w.keys| <= 10 && (w.keys != {DELETE_KEY} ==> w.keysValid)
  }

  /** Nothing prohibits giving the domain another keyset. */
  predicate MayChange(d: Domain) {
    d.states !! {ServerBlocked, ServerUpdateProhibited, DeleteCandidate}
  }

  /** A keyset under the new handle can be made. */
  ghost predicate MayCreate(r: Registry, c: Config, w: Wish) {
    && 2 <= |c.prefix| <= 22 && w.handleValid
    && forall k :: k in r.keysets ==> r.keysets[k].handle != c.prefix + w.suffix
  }

  /** The keyset of the domain is the registry's own: its handle has the prefix, its registrar is the configured one. */
  predicate OwnKeyset(r: Registry, c: Config, id: DomainId)
    requires id in r.domains
  {
    var k := r.domains[id].keyset;
    && k.Some? && k.value in r.keysets
    && c.prefix <= r.keysets[k.value].handle && r.keysets[k.value].registrar == c.registrar
  }

  /** The keys were scanned from exactly the nameservers the domain has. */
  predicate ScannedFrom(r: Registry, id: DomainId, nameservers: set<string>)
    requires id in r.domains
  {
    var n := r.domains[id].nsset;
    nameservers != {} && n.Some? && n.value in r.nssets && r.nssets[n.value] == nameservers
  }

  ghost predicate Accepts(r: Registry, c: Config, op: Operation)
    requires Manages(op)
  {
    && Serves(r, c, op.id) && KeysAcceptable(op.wish) && c.registrarIsSystem
    && match op
       case OnInsecure(id, nameservers, w) =>
         && r.domains[id].keyset == None && ScannedFrom(r, id, nameservers)
         && w.keys != {DELETE_KEY} && MayChange(r.domains[id]) && c.techContactExists && MayCreate(r, c, w)
       case OnSecure(id, w) =>
         && r.domains[id].keyset != None && !OwnKeyset(r, c, id)
         && MayChange(r.domains[id]) && c.techContactExists && (w.keys != {DELETE_KEY} ==> MayCreate(r, c, w))
       case OnManaged(id, w) =>
         && OwnKeyset(r, c, id)
         && if w.keys == {DELETE_KEY} then MayChange(r.domains[id])
            else MayRollOver(r.keysets[r.domains[id].keyset.value], w)
  }

  /** Other keys, and nothing that prohibits changing the keyset. */
  predicate MayRollOver(k: Keyset, w: Wish) {
    w.keys != k.keys && k.states !! {ServerUpdateProhibited, DeleteCandidate}
  }

  /** What happens to the keysets: one more, one with other keys, or nothing. */
  ghost predicate KeysetsAfter(r: Registry, t: Registry, c: Config, op: Operation)
    requires Manages(op) && op.id in r.domains && op.id in t.domains
  {
    && t.nssets == r.nssets
    && (forall k :: k in r.keysets && r.domains[op.id].keyset != Some(k) ==>
          k in t.keysets && t.keysets[k] == r.keysets[k])
    && if op.wish.keys == {DELETE_KEY} then
         t.keysets == r.keysets && t.domains[op.id].keyset == None
       else if op.OnManaged? then
         && t.keysets.Keys == r.keysets.Keys && t.domains == r.domains
         && var k := r.domains[op.id].keyset;
            k.Some? && k.value in r.keysets && t.keysets[k.value] == r.keysets[k.value].(keys := op.wish.keys)
       else
         var k := t.domains[op.id].keyset;
         && k.Some? && k.value !in r.keysets && t.keysets.Keys == r.keysets.Keys + {k.value}
         && t.keysets[k.value] == Keyset(c.prefix + op.wish.suffix, c.registrar, op.wish.keys, {})
         && (r.domains[op.id].keyset.Some? && r.domains[op.id].keyset.value in r.keysets ==>
               t.keysets[r.domains[op.id].keyset.value] == r.keysets[r.domains[op.id].keyset.value])
  }

  /** Each error stands for what was found. */
  ghost predicate ErrorStands(r: Registry, c: Config, op: Operation, e: Error)
    requires Manages(op)
  {
    match e
    case ObjectNotFound => !Serves(r, c, op.id)
    case DomainHasKeyset => op.OnInsecure? && Serves(r, c, op.id) && r.domains[op.id].keyset.Some?
    case DomainDoesNotHaveKeyset => op.OnSecure? && Serves(r, c, op.id) && r.domains[op.id].keyset.None?
    case DomainAlreadyHasAutomaticallyManagedKeyset => op.OnSecure? && Serves(r, c, op.id) && OwnKeyset(r, c, op.id)
    case DomainDoesNotHaveAutomaticallyManagedKeyset =>
      op.OnManaged? && Serves(r, c, op.id) && !OwnKeyset(r, c, op.id)
    case DomainNssetIsEmpty => op.OnInsecure? && Serves(r, c, op.id) && r.domains[op.id].nsset.None?
    case NssetIsEmpty => op.OnInsecure? && op.nameservers == {}
    case NssetIsDifferent => op.OnInsecure? && Serves(r, c, op.id) && !ScannedFrom(r, op.id, op.nameservers)
    case KeysetIsInvalid => !KeysAcceptable(op.wish)
    case DomainAlreadyDoesNotHaveKeyset => op.OnInsecure? && op.wish.keys == {DELETE_KEY}
    case KeysetSameAsDomainKeyset =>
      op.OnManaged? && Serves(r, c, op.id) && OwnKeyset(r, c, op.id) && EffectiveKeys(r, op.id) == op.wish.keys
    case DomainStatePolicyError => Serves(r, c, op.id) && !MayChange(r.domains[op.id])
    case KeysetStatePolicyError =>
      && op.OnManaged? && Serves(r, c, op.id) && OwnKeyset(r, c, op.id)
      && !(r.keysets[r.domains[op.id].keyset.value].states !! {ServerUpdateProhibited, DeleteCandidate})
    case ConfigurationError => !c.registrarIsSystem || !c.techContactExists || !(2 <= |c.prefix| <= 22)
    case KeysetShared => false
    case LibraryFailure => !MayCreate(r, c, op.wish)
  }

  lemma TakenOrNot(r: Registry, handle: string)
    ensures HandleTaken(r, handle) <==> !forall k :: k in r.keysets ==> r.keysets[k].handle != handle
  {
  }

  lemma InsecureAccepts(r: Registry, c: Config, op: Operation)
    requires Inv(r, c) && op.OnInsecure?
    ensures var o := OutcomeOf(r, c, op);
      && (o.Ok? <==> Accepts(r, c, op))
      && (if o.Ok? then KeysetsAfter(r, o.after, c, op) else ErrorStands(r, c, op, o.error))
  {
    TurnOffIsDeleteKey(op.wish.keys);
    TakenOrNot(r, c.prefix + op.wish.suffix);
  }

  lemma SecureAccepts(r: Registry, c: Config, op: Operation)
    requires Inv(r, c) && op.OnSecure?
    ensures var o := OutcomeOf(r, c, op);
      && (o.Ok? <==> Accepts(r, c, op))
      && (if o.Ok? then KeysetsAfter(r, o.after, c, op) else ErrorStands(r, c, op, o.error))
  {
    TurnOffIsDeleteKey(op.wish.keys);
    TakenOrNot(r, c.prefix + op.wish.suffix);
  }

  lemma ManagedAccepts(r: Registry, c: Config, op: Operation)
    requires Inv(r, c) && op.OnManaged?
    ensures var o := OutcomeOf(r, c, op);
      && (o.Ok? <==> Accepts(r, c, op))
      && (if o.Ok? then KeysetsAfter(r, o.after, c, op) else ErrorStands(r, c, op, o.error))
  {
    TurnOffIsDeleteKey(op.wish.keys);
  }

  /** In every reachable state: when an operation succeeds, what it does to the keysets, what its error stands for. */
  lemma SucceedsExactlyWhen(start: Registry, c: Config, ops: seq<Operation>, op: Operation)
    requires Inv(start, c) && Manages(op)
    ensures var r := Run(start, c, ops);
      var o := OutcomeOf(r, c, op);
      && (o.Ok? <==> Accepts(r, c, op))
      && (if o.Ok? then KeysetsAfter(r, o.after, c, op) else ErrorStands(r, c, op, o.error))
  {
    RunKeeps(start, c, ops);
    var r := Run(start, c, ops);
    match op {
      case OnInsecure(_, _, _) => InsecureAccepts(r, c, op);
      case OnSecure(_, _) => SecureAccepts(r, c, op);
      case OnManaged(_, _) => ManagedAccepts(r, c, op);
    }
  }
}
