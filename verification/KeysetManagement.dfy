/**
  Automatic keyset management: a domain is insecure (no keyset), secure (a keyset of its registrar) or managed (a keyset
  of its own, created and kept by the registry). Three operations move domains between these; each either throws and is
  rolled back or commits.
 */
module KeysetManagement {
  import opened DnsKeys
  import opened Options
  import opened KeysetPrefix

  type DomainId = nat
  type KeysetId = nat
  type NssetId = nat

  datatype State = ServerBlocked | ServerUpdateProhibited | DeleteCandidate | Outzone

  datatype Domain = Domain(
    fqdn: string, zone: string, nsset: Option<NssetId>, keyset: Option<KeysetId>, states: set<State>)

  datatype Keyset = Keyset(handle: string, registrar: string, keys: set<DnsKey>, states: set<State>)

  datatype Registry = Registry(
    domains: map<DomainId, Domain>, keysets: map<KeysetId, Keyset>,
    nssets: map<NssetId, set<string>>, nextKeyset: KeysetId)

  /** The configuration, and what the registry knows about the registrar and the contact it names. */
  datatype Config = Config(
    prefix: string, registrar: string, zones: set<string>, registrarIsSystem: bool, techContactExists: bool)

  datatype Error =
    | ObjectNotFound
    | DomainHasKeyset
    | DomainDoesNotHaveKeyset
    | DomainAlreadyHasAutomaticallyManagedKeyset
    | DomainDoesNotHaveAutomaticallyManagedKeyset
    | DomainNssetIsEmpty
    | NssetIsEmpty
    | NssetIsDifferent
    | KeysetIsInvalid
    | DomainAlreadyDoesNotHaveKeyset
    | KeysetSameAsDomainKeyset
    | DomainStatePolicyError
    | KeysetStatePolicyError
    | ConfigurationError
    | KeysetShared              // "referenced by multiple domains ... MUST BE fixed!"
    | LibraryFailure            // the generated handle is invalid or taken

  datatype Outcome = Ok(after: Registry) | Failed(error: Error)

  const PREFIX_LENGTH_MIN := 2
  const PREFIX_LENGTH_MAX := 30 - 8

  predicate PrefixOk(prefix: string) {
    PREFIX_LENGTH_MIN <= |prefix| <= PREFIX_LENGTH_MAX
  }

  predicate IsManaged(k: Keyset, c: Config) {
    OperationTest(k.handle, c.prefix) && k.registrar == c.registrar
  }

  predicate HasManagedKeyset(r: Registry, c: Config, d: Domain) {
    d.keyset.Some? && d.keyset.value in r.keysets && IsManaged(r.keysets[d.keyset.value], c)
  }

  predicate DomainProhibits(states: set<State>) {
    ServerBlocked in states || ServerUpdateProhibited in states || DeleteCandidate in states
  }

  predicate KeysetProhibits(states: set<State>) {
    ServerUpdateProhibited in states || DeleteCandidate in states
  }

  predicate HandleTaken(r: Registry, handle: string) {
    exists id | id in r.keysets :: r.keysets[id].handle == handle
  }

  /** What an operation is asked for: the new keys, whether each passes the key checks, and the random part of a
      handle. */
  datatype Wish = Wish(keys: set<DnsKey>, keysValid: bool, suffix: string, handleValid: bool)

  function NewKeyset(c: Config, w: Wish): Keyset {
    Keyset(c.prefix + w.suffix, c.registrar, w.keys, {})
  }

  function WithKeyset(r: Registry, id: DomainId, keyset: Option<KeysetId>): Registry
    requires id in r.domains
  {
    r.(domains := r.domains[id := r.domains[id].(keyset := keyset)])
  }

  /** Creates a keyset and links it to the domain. */
  function CreateAndLink(r: Registry, c: Config, id: DomainId, w: Wish): Outcome
    requires id in r.domains
  {
    if !PrefixOk(c.prefix) then Failed(ConfigurationError)
    else if !w.handleValid || HandleTaken(r, c.prefix + w.suffix) then Failed(LibraryFailure)
    else
      Ok(WithKeyset(r, id, Some(r.nextKeyset))
        .(keysets := r.keysets[r.nextKeyset := NewKeyset(c, w)], nextKeyset := r.nextKeyset + 1))
  }

  function TurnOnInsecure(r: Registry, c: Config, id: DomainId, nameservers: set<string>, w: Wish): Outcome {
    if id !in r.domains then Failed(ObjectNotFound)
    else
      var d := r.domains[id];
      if d.zone !in c.zones then Failed(ObjectNotFound)
      else if d.keyset.Some? then Failed(DomainHasKeyset)
      else if d.nsset.None? then Failed(DomainNssetIsEmpty)
      else if nameservers == {} then Failed(NssetIsEmpty)
      else if !WithinLimits(w.keys) then Failed(KeysetIsInvalid)
      else if TurnOffRequested(w.keys) then Failed(DomainAlreadyDoesNotHaveKeyset)
      else if !w.keysValid then Failed(KeysetIsInvalid)
      else if d.nsset.value !in r.nssets || nameservers != r.nssets[d.nsset.value] then Failed(NssetIsDifferent)
      else if DomainProhibits(d.states) then Failed(DomainStatePolicyError)
      else if !c.registrarIsSystem || !c.techContactExists then Failed(ConfigurationError)
      else CreateAndLink(r, c, id, w)
  }

  function TurnOnSecure(r: Registry, c: Config, id: DomainId, w: Wish): Outcome {
    if id !in r.domains then Failed(ObjectNotFound)
    else
      var d := r.domains[id];
      if d.zone !in c.zones then Failed(ObjectNotFound)
      else if d.keyset.None? then Failed(DomainDoesNotHaveKeyset)
      else if HasManagedKeyset(r, c, d) then Failed(DomainAlreadyHasAutomaticallyManagedKeyset)
      else if !WithinLimits(w.keys) then Failed(KeysetIsInvalid)
      else if !TurnOffRequested(w.keys) && !w.keysValid then Failed(KeysetIsInvalid)
      else if DomainProhibits(d.states) then Failed(DomainStatePolicyError)
      else if !c.registrarIsSystem || !c.techContactExists then Failed(ConfigurationError)
      else if TurnOffRequested(w.keys) then Ok(WithKeyset(r, id, None))
      else CreateAndLink(r, c, id, w)
  }

  ghost predicate IsShared(r: Registry, keyset: KeysetId) {
    exists a, b :: a != b && Refers(r, a, keyset) && Refers(r, b, keyset)
  }

  predicate Refers(r: Registry, id: DomainId, keyset: KeysetId) {
    id in r.domains && r.domains[id].keyset == Some(keyset)
  }

  ghost function UpdateManaged(r: Registry, c: Config, id: DomainId, w: Wish): Outcome {
    if id !in r.domains then Failed(ObjectNotFound)
    else
      var d := r.domains[id];
      if d.zone !in c.zones then Failed(ObjectNotFound)
      else if !HasManagedKeyset(r, c, d) then Failed(DomainDoesNotHaveAutomaticallyManagedKeyset)
      else if !WithinLimits(w.keys) then Failed(KeysetIsInvalid)
      else if !TurnOffRequested(w.keys) && !w.keysValid then Failed(KeysetIsInvalid)
      else if !c.registrarIsSystem then Failed(ConfigurationError)
      else if TurnOffRequested(w.keys) then
        if DomainProhibits(d.states) then Failed(DomainStatePolicyError) else Ok(WithKeyset(r, id, None))
      else
        var k := r.keysets[d.keyset.value];
        if w.keys == k.keys then Failed(KeysetSameAsDomainKeyset)
        else if KeysetProhibits(k.states) then Failed(KeysetStatePolicyError)
        else if IsShared(r, d.keyset.value) then Failed(KeysetShared)
        else Ok(r.(keysets := r.keysets[d.keyset.value := k.(keys := w.keys)]))
  }

  // ---- runs ----

  datatype Operation =
    | OnInsecure(id: DomainId, nameservers: set<string>, wish: Wish)
    | OnSecure(id: DomainId, wish: Wish)
    | OnManaged(id: DomainId, wish: Wish)
    // what registrars and the registry do meanwhile
    | SetKeyset(id: DomainId, keyset: Option<KeysetId>)
    | PutDomain(id: DomainId, fqdn: string, zone: string, nsset: Option<NssetId>, states: set<State>)
    | PutKeyset(handle: string, registrar: string, keys: set<DnsKey>, states: set<State>)

  ghost function OutcomeOf(r: Registry, c: Config, op: Operation): Outcome {
    match op
    case OnInsecure(id, nameservers, w) => TurnOnInsecure(r, c, id, nameservers, w)
    case OnSecure(id, w) => TurnOnSecure(r, c, id, w)
    case OnManaged(id, w) => UpdateManaged(r, c, id, w)
    case SetKeyset(id, keyset) =>
      // a registrar links and unlinks keysets, but not the managed ones
      if id in r.domains && (keyset.Some? ==> keyset.value in r.keysets && !IsManaged(r.keysets[keyset.value], c)) then
        Ok(WithKeyset(r, id, keyset))
      else Failed(LibraryFailure)
    case PutDomain(id, fqdn, zone, nsset, states) =>
      Ok(r.(domains := r.domains[id :=
        Domain(fqdn, zone, nsset, if id in r.domains then r.domains[id].keyset else None, states)]))
    case PutKeyset(handle, registrar, keys, states) =>
      if HandleTaken(r, handle) then Failed(LibraryFailure)
      else Ok(r.(keysets := r.keysets[r.nextKeyset := Keyset(handle, registrar, keys, states)],
           nextKeyset := r.nextKeyset + 1))
  }

  ghost function Step(r: Registry, c: Config, op: Operation): Registry {
    match OutcomeOf(r, c, op)
    case Ok(after) => after
    case Failed(_) => r
  }

  ghost function Run(r: Registry, c: Config, ops: seq<Operation>): Registry
    decreases |ops|
  {
    if ops == [] then r else Run(Step(r, c, ops[0]), c, ops[1..])
  }

  /** References resolve and keyset ids and handles are not used twice. */
  ghost predicate Consistent(r: Registry) {
    && (forall id :: id in r.domains && r.domains[id].keyset.Some? ==> r.domains[id].keyset.value in r.keysets)
    && (forall k :: k in r.keysets ==> k < r.nextKeyset)
    && (forall j, k :: j in r.keysets && k in r.keysets && j != k ==> r.keysets[j].handle != r.keysets[k].handle)
  }

  /** No managed keyset serves two domains. */
  ghost predicate Unshared(r: Registry, c: Config) {
    forall a, b, k :: a != b && Refers(r, a, k) && Refers(r, b, k) ==> k in r.keysets ==> !IsManaged(r.keysets[k], c)
  }

  ghost predicate Inv(r: Registry, c: Config) {
    Consistent(r) && Unshared(r, c)
  }

  lemma CreateAndLinkKeeps(r: Registry, c: Config, id: DomainId, w: Wish)
    requires Inv(r, c) && id in r.domains && CreateAndLink(r, c, id, w).Ok?
    ensures Inv(CreateAndLink(r, c, id, w).after, c)
  {
    var t := CreateAndLink(r, c, id, w).after;
    forall a, b, k | a != b && Refers(t, a, k) && Refers(t, b, k) && k in t.keysets
      ensures !IsManaged(t.keysets[k], c)
    {
      assert k != r.nextKeyset;
      assert Refers(r, a, k) && Refers(r, b, k);
    }
  }

  lemma WithKeysetKeeps(r: Registry, c: Config, id: DomainId, keyset: Option<KeysetId>)
    requires Inv(r, c) && id in r.domains
    requires keyset.Some? ==> keyset.value in r.keysets && !IsManaged(r.keysets[keyset.value], c)
    ensures Inv(WithKeyset(r, id, keyset), c)
  {
    var t := WithKeyset(r, id, keyset);
    forall a, b, k | a != b && Refers(t, a, k) && Refers(t, b, k) && k in t.keysets
      ensures !IsManaged(t.keysets[k], c)
    {
      if keyset != Some(k) {
        assert Refers(r, a, k) && Refers(r, b, k);
      }
    }
  }

  /** Only keys, states or unreferenced keysets differ. */
  lemma SameReferencesKeep(r: Registry, c: Config, t: Registry)
    requires Inv(r, c) && Consistent(t)
    requires forall id, k :: Refers(t, id, k) ==> Refers(r, id, k)
    requires forall k :: k in r.keysets ==>
      k in t.keysets && t.keysets[k].handle == r.keysets[k].handle && t.keysets[k].registrar == r.keysets[k].registrar
    ensures Inv(t, c)
  {
    forall a, b, k | a != b && Refers(t, a, k) && Refers(t, b, k) && k in t.keysets
      ensures !IsManaged(t.keysets[k], c)
    {
      assert Refers(r, a, k) && Refers(r, b, k);
    }
  }

  lemma StepKeeps(r: Registry, c: Config, op: Operation)
    requires Inv(r, c)
    ensures Inv(Step(r, c, op), c)
  {
    var t := Step(r, c, op);
    if OutcomeOf(r, c, op).Ok? {
      match op {
        case OnInsecure(id, _, w) => CreateAndLinkKeeps(r, c, id, w);
        case OnSecure(id, w) =>
          if TurnOffRequested(w.keys) { WithKeysetKeeps(r, c, id, None); } else { CreateAndLinkKeeps(r, c, id, w); }
        case OnManaged(id, w) =>
          if TurnOffRequested(w.keys) { WithKeysetKeeps(r, c, id, None); } else { SameReferencesKeep(r, c, t); }
        case SetKeyset(id, keyset) => WithKeysetKeeps(r, c, id, keyset);
        case PutDomain(_, _, _, _, _) => SameReferencesKeep(r, c, t);
        case PutKeyset(_, _, _, _) => SameReferencesKeep(r, c, t);
      }
    }
  }

  lemma {:induction false} RunKeeps(r: Registry, c: Config, ops: seq<Operation>)
    requires Inv(r, c)
    ensures Inv(Run(r, c, ops), c)
    decreases |ops|
  {
    if ops != [] {
      StepKeeps(r, c, ops[0]);
      RunKeeps(Step(r, c, ops[0]), c, ops[1..]);
    }
  }

  /** Over every run from an unshared start no managed keyset serves two domains, so the throw about it is never
      reached. */
  lemma SharedThrowUnreachable(r: Registry, c: Config, ops: seq<Operation>, op: Operation)
    requires Inv(r, c)
    ensures Unshared(Run(r, c, ops), c)
    ensures OutcomeOf(Run(r, c, ops), c, op) != Failed(KeysetShared)
  {
    RunKeeps(r, c, ops);
  }

  // ---- what a success means ----

  datatype Class = Insecure | Secure | Managed

  function ClassOf(r: Registry, c: Config, id: DomainId): Class
    requires id in r.domains
  {
    if r.domains[id].keyset.None? then Insecure
    else if HasManagedKeyset(r, c, r.domains[id]) then Managed
    else Secure
  }

  /** The keys a domain's delegation is signed with. */
  function EffectiveKeys(r: Registry, id: DomainId): set<DnsKey>
    requires id in r.domains
  {
    var k := r.domains[id].keyset;
    if k.Some? && k.value in r.keysets then r.keysets[k.value].keys else {}
  }

  /** Deleting leaves no keys, anything else exactly the keys asked for; no other domain notices. */
  ghost predicate MovesAsAsked(r: Registry, t: Registry, c: Config, id: DomainId, keys: set<DnsKey>) {
    && id in r.domains && t.domains.Keys == r.domains.Keys
    && ClassOf(t, c, id) == (if keys == {DELETE_KEY} then Insecure else Managed)
    && EffectiveKeys(t, id) == (if keys == {DELETE_KEY} then {} else keys)
    && t.domains[id] == r.domains[id].(keyset := t.domains[id].keyset)
    && t.nssets == r.nssets
    && forall other :: other in r.domains && other != id ==>
         && t.domains[other] == r.domains[other]
         && EffectiveKeys(t, other) == EffectiveKeys(r, other)
         && ClassOf(t, c, other) == ClassOf(r, c, other)
  }

  predicate Manages(op: Operation) {
    op.OnInsecure? || op.OnSecure? || op.OnManaged?
  }

  function From(op: Operation): Class
    requires Manages(op)
  {
    if op.OnInsecure? then Insecure else if op.OnSecure? then Secure else Managed
  }

  lemma CreateAndLinkMoves(r: Registry, c: Config, id: DomainId, w: Wish)
    requires Inv(r, c) && id in r.domains && CreateAndLink(r, c, id, w).Ok? && !TurnOffRequested(w.keys)
    ensures MovesAsAsked(r, CreateAndLink(r, c, id, w).after, c, id, w.keys)
  {
    TurnOffIsDeleteKey(w.keys);
    var t := CreateAndLink(r, c, id, w).after;
    assert c.prefix <= c.prefix + w.suffix;
    forall other | other in r.domains && other != id
      ensures EffectiveKeys(t, other) == EffectiveKeys(r, other) && ClassOf(t, c, other) == ClassOf(r, c, other)
    {
      assert r.domains[other].keyset != Some(r.nextKeyset);
    }
  }

  lemma UnlinkMoves(r: Registry, c: Config, id: DomainId, w: Wish)
    requires Inv(r, c) && id in r.domains && TurnOffRequested(w.keys)
    ensures MovesAsAsked(r, WithKeyset(r, id, None), c, id, w.keys)
  {
    TurnOffIsDeleteKey(w.keys);
  }

  lemma RolloverMoves(r: Registry, c: Config, id: DomainId, w: Wish)
    requires Inv(r, c) && UpdateManaged(r, c, id, w).Ok? && !TurnOffRequested(w.keys)
    ensures MovesAsAsked(r, UpdateManaged(r, c, id, w).after, c, id, w.keys)
  {
    TurnOffIsDeleteKey(w.keys);
    var t := UpdateManaged(r, c, id, w).after;
    var k := r.domains[id].keyset.value;
    forall other | other in r.domains && other != id
      ensures EffectiveKeys(t, other) == EffectiveKeys(r, other) && ClassOf(t, c, other) == ClassOf(r, c, other)
    {
      assert Refers(r, id, k) && !Refers(r, other, k);
    }
  }

  /**
    In every reachable state each success starts from the class its operation is for, and moves that one domain as
    section 4 of RFC 8078 intends.
   */
  lemma SuccessMovesOneDomain(start: Registry, c: Config, ops: seq<Operation>, op: Operation)
    requires Inv(start, c) && Manages(op)
    requires OutcomeOf(Run(start, c, ops), c, op).Ok?
    ensures var r := Run(start, c, ops);
      && op.id in r.domains && ClassOf(r, c, op.id) == From(op)
      && MovesAsAsked(r, Step(r, c, op), c, op.id, op.wish.keys)
  {
    RunKeeps(start, c, ops);
    var r := Run(start, c, ops);
    if TurnOffRequested(op.wish.keys) {
      UnlinkMoves(r, c, op.id, op.wish);
    } else if op.OnManaged? {
      RolloverMoves(r, c, op.id, op.wish);
    } else {
      CreateAndLinkMoves(r, c, op.id, op.wish);
    }
  }
}
