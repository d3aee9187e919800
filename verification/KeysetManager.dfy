/**
  The management object, its operations written out guard by guard.
 */
module KeysetManager {
  import opened Options
  import opened DnsKeys
  import opened KeysetManagement
  import opened KeysetConditions

  function ErrorOf(o: Outcome): Option<Error> {
    match o
    case Ok(_) => None
    case Failed(e) => Some(e)
  }

  /** is_keyset_shared: count references, but no more than two. */
  method IsKeysetShared(r: Registry, keyset: KeysetId) returns (shared: bool)
    ensures shared <==> IsShared(r, keyset)
  {
    var left := r.domains.Keys;
    var found: set<DomainId> := {};
    while left != {} && |found| < 2
      invariant left <= r.domains.Keys && found <= r.domains.Keys - left && |found| <= 2
      invariant forall id :: id in r.domains && id !in left ==> (id in found <==> Refers(r, id, keyset))
      decreases left
    {
      var id :| id in left;
      left := left - {id};
      if r.domains[id].keyset == Some(keyset) {
        found := found + {id};
      }
    }
    shared := 1 < |found|;
    TwoOrFewer(r, keyset, left, found);
  }

  lemma TwoOrFewer(r: Registry, keyset: KeysetId, left: set<DomainId>, found: set<DomainId>)
    requires left <= r.domains.Keys && found <= r.domains.Keys - left
    requires forall id :: id in r.domains && id !in left ==> (id in found <==> Refers(r, id, keyset))
    requires left == {} || |found| >= 2
    ensures 1 < |found| <==> IsShared(r, keyset)
  {
    if 1 < |found| {
      var a :| a in found;
      assert |found - {a}| > 0;
      var b :| b in found - {a};
      assert Refers(r, a, keyset) && Refers(r, b, keyset);
    }
    if left == {} && IsShared(r, keyset) {
      var a, b :| a != b && Refers(r, a, keyset) && Refers(r, b, keyset);
      assert b in found - {a};
      assert |found| == |found - {a}| + 1;
    }
  }

  /** UpdateKeyset: remove every current key, then add every new one. */
  method ReplaceKeys(current: set<DnsKey>, wanted: set<DnsKey>) returns (keys: set<DnsKey>)
    ensures keys == wanted
  {
    keys := current;
    var left := current;
    while left != {}
      invariant keys == left
      decreases left
    {
      var k :| k in left;
      left, keys := left - {k}, keys - {k};
    }
    left := wanted;
    while left != {}
      invariant left <= wanted && keys == wanted - left
      decreases left
    {
      var k :| k in left;
      left, keys := left - {k}, keys + {k};
    }
  }

  /** What holds from the present registry on. */
  lemma SuccessMoves(r: Registry, c: Config, op: Operation)
    requires Inv(r, c) && Manages(op)
    ensures var o := OutcomeOf(r, c, op);
      && (o.Ok? <==> Accepts(r, c, op))
      && (if o.Ok? then KeysetsAfter(r, o.after, c, op) else ErrorStands(r, c, op, o.error))
    ensures OutcomeOf(r, c, op).Ok? ==>
      && op.id in r.domains && ClassOf(r, c, op.id) == From(op)
      && MovesAsAsked(r, Step(r, c, op), c, op.id, op.wish.keys)
  {
    assert Run(r, c, []) == r;
    SucceedsExactlyWhen(r, c, [], op);
    if OutcomeOf(r, c, op).Ok? {
      SuccessMovesOneDomain(r, c, [], op);
    }
  }

  class Manager {
    var registry: Registry
    const config: Config

    constructor (r: Registry, c: Config)
      ensures registry == r && config == c
    {
      registry, config := r, c;
    }

    method CreateAndLink(id: DomainId, w: Wish) returns (error: Option<Error>)
      requires id in registry.domains
      modifies this
      ensures match KeysetManagement.CreateAndLink(old(registry), config, id, w)
        case Ok(after) => error == None && registry == after
        case Failed(e) => error == Some(e) && registry == old(registry)
    {
      if |config.prefix| < PREFIX_LENGTH_MIN || |config.prefix| > PREFIX_LENGTH_MAX {
        return Some(ConfigurationError);
      }
      if !w.handleValid || HandleTaken(registry, config.prefix + w.suffix) {
        return Some(LibraryFailure);
      }
      var keyset := registry.nextKeyset;
      registry := registry.(keysets := registry.keysets[keyset := NewKeyset(config, w)], nextKeyset := keyset + 1);
      registry := WithKeyset(registry, id, Some(keyset));
      error := None;
    }

    method TurnOnInsecure(id: DomainId, nameservers: set<string>, w: Wish) returns (error: Option<Error>)
      requires Inv(registry, config)
      modifies this
      ensures Inv(registry, config)
      ensures registry == Step(old(registry), config, OnInsecure(id, nameservers, w))
      ensures error == ErrorOf(OutcomeOf(old(registry), config, OnInsecure(id, nameservers, w)))
      ensures error.None? <==> Accepts(old(registry), config, OnInsecure(id, nameservers, w))
      ensures error.None? ==> KeysetsAfter(old(registry), registry, config, OnInsecure(id, nameservers, w))
      ensures error.Some? ==> ErrorStands(old(registry), config, OnInsecure(id, nameservers, w), error.value)
      ensures error.Some? ==> registry == old(registry)
      ensures error.None? ==> id in old(registry).domains && ClassOf(old(registry), config, id) == Insecure
      ensures error.None? ==> MovesAsAsked(old(registry), registry, config, id, w.keys)
    {
      StepKeeps(registry, config, OnInsecure(id, nameservers, w));
      SuccessMoves(registry, config, OnInsecure(id, nameservers, w));
      if id !in registry.domains || registry.domains[id].zone !in config.zones {
        return Some(ObjectNotFound);
      }
      var d := registry.domains[id];
      if d.keyset.Some? {
        return Some(DomainHasKeyset);
      }
      if d.nsset.None? {
        return Some(DomainNssetIsEmpty);
      }
      if nameservers == {} {
        return Some(NssetIsEmpty);
      }
      if !WithinLimits(w.keys) {
        return Some(KeysetIsInvalid);
      }
      if TurnOffRequested(w.keys) {
        return Some(DomainAlreadyDoesNotHaveKeyset);
      } else if !w.keysValid {
        return Some(KeysetIsInvalid);
      }
      if d.nsset.value !in registry.nssets || nameservers != registry.nssets[d.nsset.value] {
        return Some(NssetIsDifferent);
      }
      if DomainProhibits(d.states) {
        return Some(DomainStatePolicyError);
      }
      if !config.registrarIsSystem || !config.techContactExists {
        return Some(ConfigurationError);
      }
      error := CreateAndLink(id, w);
    }

    method TurnOnSecure(id: DomainId, w: Wish) returns (error: Option<Error>)
      requires Inv(registry, config)
      modifies this
      ensures Inv(registry, config)
      ensures registry == Step(old(registry), config, OnSecure(id, w))
      ensures error == ErrorOf(OutcomeOf(old(registry), config, OnSecure(id, w)))
      ensures error.None? <==> Accepts(old(registry), config, OnSecure(id, w))
      ensures error.None? ==> KeysetsAfter(old(registry), registry, config, OnSecure(id, w))
      ensures error.Some? ==> ErrorStands(old(registry), config, OnSecure(id, w), error.value)
      ensures error.Some? ==> registry == old(registry)
      ensures error.None? ==> id in old(registry).domains && ClassOf(old(registry), config, id) == Secure
      ensures error.None? ==> MovesAsAsked(old(registry), registry, config, id, w.keys)
    {
      StepKeeps(registry, config, OnSecure(id, w));
      SuccessMoves(registry, config, OnSecure(id, w));
      if id !in registry.domains || registry.domains[id].zone !in config.zones {
        return Some(ObjectNotFound);
      }
      var d := registry.domains[id];
      if d.keyset.None? {
        return Some(DomainDoesNotHaveKeyset);
      }
      if HasManagedKeyset(registry, config, d) {
        return Some(DomainAlreadyHasAutomaticallyManagedKeyset);
      }
      if !WithinLimits(w.keys) {
        return Some(KeysetIsInvalid);
      }
      var turnOff := TurnOffRequested(w.keys);
      if !turnOff && !w.keysValid {
        return Some(KeysetIsInvalid);
      }
      if DomainProhibits(d.states) {
        return Some(DomainStatePolicyError);
      }
      if !config.registrarIsSystem || !config.techContactExists {
        return Some(ConfigurationError);
      }
      if turnOff {
        registry := WithKeyset(registry, id, None);
        return None;
      }
      error := CreateAndLink(id, w);
    }

    method UpdateManaged(id: DomainId, w: Wish) returns (error: Option<Error>)
      requires Inv(registry, config)
      modifies this
      ensures Inv(registry, config)
      ensures registry == Step(old(registry), config, OnManaged(id, w))
      ensures error == ErrorOf(OutcomeOf(old(registry), config, OnManaged(id, w)))
      ensures error.None? <==> Accepts(old(registry), config, OnManaged(id, w))
      ensures error.None? ==> KeysetsAfter(old(registry), registry, config, OnManaged(id, w))
      ensures error.Some? ==> ErrorStands(old(registry), config, OnManaged(id, w), error.value)
      ensures error.Some? ==> registry == old(registry)
      ensures error.None? ==> id in old(registry).domains && ClassOf(old(registry), config, id) == Managed
      ensures error.None? ==> MovesAsAsked(old(registry), registry, config, id, w.keys)
      ensures error != Some(KeysetShared)
    {
      StepKeeps(registry, config, OnManaged(id, w));
      SuccessMoves(registry, config, OnManaged(id, w));
      if id !in registry.domains || registry.domains[id].zone !in config.zones {
        return Some(ObjectNotFound);
      }
      var d := registry.domains[id];
      if !HasManagedKeyset(registry, config, d) {
        return Some(DomainDoesNotHaveAutomaticallyManagedKeyset);
      }
      if !WithinLimits(w.keys) {
        return Some(KeysetIsInvalid);
      }
      var turnOff := TurnOffRequested(w.keys);
      if !turnOff && !w.keysValid {
        return Some(KeysetIsInvalid);
      }
      if !config.registrarIsSystem {
        return Some(ConfigurationError);
      }
      if turnOff {
        if DomainProhibits(d.states) {
          return Some(DomainStatePolicyError);
        }
        registry := WithKeyset(registry, id, None);
        return None;
      }
      error := Rollover(d.keyset.value, w);
      assert old(registry) == Run(old(registry), config, []);
      SharedThrowUnreachable(old(registry), config, [], OnManaged(id, w));
    }

    method Rollover(keyset: KeysetId, w: Wish) returns (error: Option<Error>)
      requires keyset in registry.keysets
      modifies this
      ensures var k := old(registry).keysets[keyset];
        if w.keys == k.keys then error == Some(KeysetSameAsDomainKeyset)
        else if KeysetProhibits(k.states) then error == Some(KeysetStatePolicyError)
        else if IsShared(old(registry), keyset) then error == Some(KeysetShared)
        else error == None
      ensures registry ==
        if error.Some? then old(registry)
        else old(registry).(keysets := old(registry).keysets[keyset := old(registry).keysets[keyset].(keys := w.keys)])
    {
      var k := registry.keysets[keyset];
      if w.keys == k.keys {
        return Some(KeysetSameAsDomainKeyset);
      }
      if KeysetProhibits(k.states) {
        return Some(KeysetStatePolicyError);
      }
      var shared := IsKeysetShared(registry, keyset);
      if shared {
        return Some(KeysetShared);
      }
      var keys := ReplaceKeys(k.keys, w.keys);
      registry := registry.(keysets := registry.keysets[keyset := k.(keys := keys)]);
      error := None;
    }
  }
}
