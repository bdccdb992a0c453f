/** Normalisation of a capability contract (src/core/src/lib.rs,
    `normalize_capability_contract`): every name is owned once, and every effect, read and
    claim an operation advertises resolves. */
module Capabilities {
  import opened Wrappers
  import opened Decision

  datatype EffectInput = EffectInput(id: string, domain: string)

  datatype OperationInput = OperationInput(id: string, inputs: Option<seq<string>>, effects: seq<string>,
                                           claims: seq<string>)

  datatype OwnerInput = OwnerInput(
    owner: string, domains: seq<string>, effects: seq<EffectInput>, operations: seq<OperationInput>,
        requests: seq<string>)

  datatype ClaimInput = ClaimInput(claim: string, owner: string)

  datatype GrantInput = GrantInput(owner: string, affects: seq<string>)

  datatype ContractInput = ContractInput(owners: seq<OwnerInput>, claims: seq<ClaimInput>, grants: seq<GrantInput>)

  // ----- what a valid contract is -----

  /** Nonempty texts without repetition. */
  predicate Unique(names: seq<string>) {
    && "" !in names
    && forall i, j :: 0 <= i < j < |names| ==> names[i] != names[j]
  }

  function Names(names: seq<string>): set<string> {
    set n | n in names
  }

  function EffectIds(effects: seq<EffectInput>): (ids: seq<string>)
    ensures |ids| == |effects| && forall k :: 0 <= k < |ids| ==> ids[k] == effects[k].id
  {
    seq(|effects|, k requires 0 <= k < |effects| => effects[k].id)
  }

  function OperationIds(operations: seq<OperationInput>): (ids: seq<string>)
    ensures |ids| == |operations| && forall k :: 0 <= k < |ids| ==> ids[k] == operations[k].id
  {
    seq(|operations|, k requires 0 <= k < |operations| => operations[k].id)
  }

  predicate OperationOk(operation: OperationInput, effects: set<string>) {
    && Unique(operation.effects) && Unique(operation.claims)
    && (operation.inputs.Some? ==> Unique(operation.inputs.value))
    && forall e :: e in operation.effects ==> e in effects
  }

  predicate OwnerOk(o: OwnerInput) {
    && o.owner != ""
    && Unique(o.domains) && Unique(EffectIds(o.effects)) && Unique(OperationIds(o.operations)) && Unique(o.requests)
    && (forall k :: 0 <= k < |o.effects| ==> o.effects[k].domain in o.domains)
    && forall k :: 0 <= k < |o.operations| ==> OperationOk(o.operations[k], Names(EffectIds(o.effects)))
  }

  /** The names one owner takes, kind by kind. */
  datatype Taken = Taken(owners: set<string>, domains: set<string>, effects: set<string>, operations: set<string>,
                         requests: set<string>)

  function TakenBy(o: OwnerInput): Taken {
    Taken({o.owner}, Names(o.domains), Names(EffectIds(o.effects)), Names(OperationIds(o.operations)),
          Names(o.requests))
  }

  function Join(a: Taken, b: Taken): Taken {
    Taken(a.owners + b.owners, a.domains + b.domains, a.effects + b.effects, a.operations + b.operations,
          a.requests + b.requests)
  }

  predicate Apart(a: Taken, b: Taken) {
    a.owners !! b.owners && a.domains !! b.domains && a.effects !! b.effects
    && a.operations !! b.operations && a.requests !! b.requests
  }

  /** The names the first `n` owners take. */
  function AllTaken(owners: seq<OwnerInput>, n: nat): Taken
    requires n <= |owners|
  {
    if n == 0 then Taken({}, {}, {}, {}, {}) else Join(AllTaken(owners, n - 1), TakenBy(owners[n - 1]))
  }

  /** An owner is sound by itself and takes no name an earlier one took. */
  predicate OwnerFits(owners: seq<OwnerInput>, i: nat)
    requires i < |owners|
  {
    OwnerOk(owners[i]) && Apart(AllTaken(owners, i), TakenBy(owners[i]))
  }

  predicate OwnersOk(owners: seq<OwnerInput>, n: nat)
    requires n <= |owners|
  {
    forall i :: 0 <= i < n ==> OwnerFits(owners, i)
  }

  ghost predicate ClaimsOk(claims: seq<ClaimInput>, n: nat, owners: set<string>)
    requires n <= |claims|
  {
    && (forall i :: 0 <= i < n ==> claims[i].claim != "" && claims[i].owner in owners)
    && forall i, j :: 0 <= i < j < n ==> claims[i].claim != claims[j].claim
  }

  /** The claim authorities, in map form. */
  ghost predicate Authorities(claims: seq<ClaimInput>, n: nat, authorities: map<string, string>)
    requires n <= |claims|
  {
    && (forall i :: 0 <= i < n ==> claims[i].claim in authorities && authorities[claims[i].claim] == claims[i].owner)
    && forall c :: c in authorities ==> exists i :: 0 <= i < n && claims[i].claim == c
  }

  /** Reads name known domains and claims are the owner's own. */
  predicate Resolves(operation: Operation, owner: string, domains: set<string>, authorities: map<string, string>) {
    && (operation.inputs.Some? ==> operation.inputs.value <= domains)
    && forall c :: c in operation.claims ==> c in authorities && authorities[c] == owner
  }

  function OperationOf(operation: OperationInput): Operation {
    Operation(if operation.inputs.Some? then Some(Names(operation.inputs.value)) else None,
              Names(operation.effects), Names(operation.claims))
  }

  ghost predicate Represents(o: OwnerInput, c: Capability) {
    && c.domains == Names(o.domains)
    && (forall k :: 0 <= k < |o.effects| ==>
        o.effects[k].id in c.effects && c.effects[o.effects[k].id] == o.effects[k].domain)
    && (forall id :: id in c.effects ==> exists k :: 0 <= k < |o.effects| && o.effects[k].id == id)
    && (forall k :: 0 <= k < |o.operations| ==>
          o.operations[k].id in c.operations && c.operations[o.operations[k].id] == OperationOf(o.operations[k]))
    && (forall id :: id in c.operations ==> exists k :: 0 <= k < |o.operations| && o.operations[k].id == id)
  }

  ghost predicate RepresentsAll(owners: seq<OwnerInput>, n: nat, capabilities: map<string, Capability>)
    requires n <= |owners|
  {
    && (forall i :: 0 <= i < n ==>
        owners[i].owner in capabilities && Represents(owners[i], capabilities[owners[i].owner]))
    && forall name :: name in capabilities ==> exists i :: 0 <= i < n && owners[i].owner == name
  }

  // ----- normalisation -----

  /** Take these names, each once and none taken before. */
  method Take(names: seq<string>, taken: set<string>) returns (ok: bool, taken': set<string>)
    ensures ok <==> Unique(names) && Names(names) !! taken
    ensures ok ==> taken' == taken + Names(names)
  {
    taken' := taken;
    for k := 0 to |names|
      invariant Unique(names[..k]) && Names(names[..k]) !! taken
      invariant taken' == taken + Names(names[..k])
    {
      if names[k] == "" || names[k] in taken' {
        assert names[k] in names[..k] || names[k] in taken || names[k] == "";
        return false, taken';
      }
      assert names[..k + 1] == names[..k] + [names[k]];
      taken' := taken' + {names[k]};
    }
    assert names[..|names|] == names;
    ok := true;
  }

  method NormalizeOwner(o: OwnerInput, taken: Taken) returns (result: Option<(Capability, Taken)>)
    ensures result.Some? <==> OwnerOk(o) && Apart(taken, TakenBy(o))
    ensures result.Some? ==> Represents(o, result.value.0) && result.value.1 == Join(taken, TakenBy(o))
  {
    if o.owner == "" || o.owner in taken.owners {
      assert o.owner in TakenBy(o).owners;
      return None;
    }
    var ok, domains := Take(o.domains, taken.domains);
    if !ok { return None; }
    for k := 0 to |o.effects|
      invariant forall j :: 0 <= j < k ==> o.effects[j].domain in o.domains
    {
      if o.effects[k].domain !in o.domains { return None; }
    }
    var effects, operations, requests;
    ok, effects := Take(EffectIds(o.effects), taken.effects);
    if !ok { return None; }
    ok, operations := Take(OperationIds(o.operations), taken.operations);
    if !ok { return None; }
    var ids := Names(EffectIds(o.effects));
    for k := 0 to |o.operations|
      invariant forall j :: 0 <= j < k ==> OperationOk(o.operations[j], ids)
    {
      if !OperationOk(o.operations[k], ids) { return None; }
    }
    ok, requests := Take(o.requests, taken.requests);
    if !ok { return None; }
    var capability := Build(o);
    result := Some((capability, Taken(taken.owners + {o.owner}, domains, effects, operations, requests)));
  }

  method Build(o: OwnerInput) returns (c: Capability)
    requires OwnerOk(o)
    ensures Represents(o, c)
  {
    var effects: map<string, string> := map[];
    for k := 0 to |o.effects|
      invariant forall j :: 0 <= j < k ==> o.effects[j].id in effects && effects[o.effects[j].id] == o.effects[j].domain
      invariant forall id :: id in effects ==> exists j :: 0 <= j < k && o.effects[j].id == id
    {
      assert forall j :: 0 <= j < k ==> EffectIds(o.effects)[j] != EffectIds(o.effects)[k];
      effects := effects[o.effects[k].id := o.effects[k].domain];
    }
    var operations: map<string, Operation> := map[];
    for k := 0 to |o.operations|
      invariant forall j :: 0 <= j < k ==>
                  o.operations[j].id in operations && operations[o.operations[j].id] == OperationOf(o.operations[j])
      invariant forall id :: id in operations ==> exists j :: 0 <= j < k && o.operations[j].id == id
    {
      assert forall j :: 0 <= j < k ==> OperationIds(o.operations)[j] != OperationIds(o.operations)[k];
      operations := operations[o.operations[k].id := OperationOf(o.operations[k])];
    }
    c := Capability(Names(o.domains), effects, operations);
  }

  lemma OneMoreCapability(owners: seq<OwnerInput>, n: nat, capabilities: map<string, Capability>, c: Capability)
    requires n < |owners| && RepresentsAll(owners, n, capabilities)
    requires owners[n].owner !in capabilities && Represents(owners[n], c)
    ensures RepresentsAll(owners, n + 1, capabilities[owners[n].owner := c])
  {
  }

  /** The contract so far: the first `n` owners and the names they took. */
  ghost predicate SoFar(owners: seq<OwnerInput>, n: nat, capabilities: map<string, Capability>, taken: Taken)
    requires n <= |owners|
  {
    RepresentsAll(owners, n, capabilities) && taken == AllTaken(owners, n) && capabilities.Keys == taken.owners
  }

  method AddOwner(owners: seq<OwnerInput>, n: nat, capabilities: map<string, Capability>, taken: Taken)
    returns (result: Option<(map<string, Capability>, Taken)>)
    requires n < |owners| && SoFar(owners, n, capabilities, taken)
    ensures result.Some? <==> OwnerFits(owners, n)
    ensures result.Some? ==> SoFar(owners, n + 1, result.value.0, result.value.1)
  {
    var normalized := NormalizeOwner(owners[n], taken);
    if normalized.None? {
      return None;
    }
    assert owners[n].owner in TakenBy(owners[n]).owners;
    OneMoreCapability(owners, n, capabilities, normalized.value.0);
    result := Some((capabilities[owners[n].owner := normalized.value.0], normalized.value.1));
  }

  lemma NothingYet(owners: seq<OwnerInput>)
    ensures OwnersOk(owners, 0) && SoFar(owners, 0, map[], Taken({}, {}, {}, {}, {}))
  {
  }

  lemma OneMoreOwner(owners: seq<OwnerInput>, n: nat)
    requires n < |owners| && OwnersOk(owners, n)
    ensures OwnersOk(owners, n + 1) <==> OwnerFits(owners, n)
    ensures OwnersOk(owners, |owners|) ==> OwnerFits(owners, n)
  {
  }

  method NormalizeOwners(owners: seq<OwnerInput>) returns (result: Option<(map<string, Capability>, Taken)>)
    ensures result.Some? <==> OwnersOk(owners, |owners|)
    ensures result.Some? ==> SoFar(owners, |owners|, result.value.0, result.value.1)
  {
    var capabilities: map<string, Capability> := map[];
    var taken := Taken({}, {}, {}, {}, {});
    NothingYet(owners);
    for n := 0 to |owners|
      invariant OwnersOk(owners, n)
      invariant SoFar(owners, n, capabilities, taken)
    {
      OneMoreOwner(owners, n);
      var added := AddOwner(owners, n, capabilities, taken);
      if added.None? {
        return None;
      }
      capabilities := added.value.0;
      taken := added.value.1;
    }
    result := Some((capabilities, taken));
  }

  method NormalizeClaims(claims: seq<ClaimInput>, owners: set<string>) returns (result: Option<map<string, string>>)
    ensures result.Some? <==> ClaimsOk(claims, |claims|, owners)
    ensures result.Some? ==> Authorities(claims, |claims|, result.value)
  {
    var authorities: map<string, string> := map[];
    for n := 0 to |claims|
      invariant ClaimsOk(claims, n, owners) && Authorities(claims, n, authorities)
    {
      if claims[n].claim == "" || claims[n].owner !in owners || claims[n].claim in authorities {
        return None;
      }
      authorities := authorities[claims[n].claim := claims[n].owner];
    }
    result := Some(authorities);
  }

  // ----- the whole contract -----

  predicate Scope(s: string) {
    s == TASK || HasPrefix(s, "action:") || HasPrefix(s, "decision:") || HasPrefix(s, "effect:")
    || HasPrefix(s, "claim:") || HasPrefix(s, "outcome:") || HasPrefix(s, "attestation:")
  }

  predicate HasPrefix(s: string, prefix: string) {
    prefix < s
  }

  predicate GrantOk(grant: GrantInput, owners: set<string>) {
    grant.owner in owners && grant.affects != [] && forall s :: s in grant.affects ==> Scope(s)
  }

  ghost predicate GrantsOk(grants: seq<GrantInput>, n: nat, owners: set<string>)
    requires n <= |grants|
  {
    && (forall i :: 0 <= i < n ==> GrantOk(grants[i], owners))
    && forall i, j :: 0 <= i < j < n ==> grants[i].owner != grants[j].owner
  }

  ghost predicate Restrictions(grants: seq<GrantInput>, n: nat, restrictions: map<string, set<string>>)
    requires n <= |grants|
  {
    && (forall i :: 0 <= i < n ==>
          grants[i].owner in restrictions && restrictions[grants[i].owner] == Names(grants[i].affects))
    && forall o :: o in restrictions ==> exists i :: 0 <= i < n && grants[i].owner == o
  }

  method NormalizeGrants(grants: seq<GrantInput>, owners: set<string>)
    returns (result: Option<map<string, set<string>>>)
    ensures result.Some? <==> GrantsOk(grants, |grants|, owners)
    ensures result.Some? ==> Restrictions(grants, |grants|, result.value)
  {
    var restrictions: map<string, set<string>> := map[];
    for n := 0 to |grants|
      invariant GrantsOk(grants, n, owners) && Restrictions(grants, n, restrictions)
    {
      if !GrantOk(grants[n], owners) || grants[n].owner in restrictions {
        return None;
      }
      restrictions := restrictions[grants[n].owner := Names(grants[n].affects)];
    }
    result := Some(restrictions);
  }

  ghost predicate Granted(claims: seq<ClaimInput>, claim: string, owner: string) {
    exists j :: 0 <= j < |claims| && claims[j] == ClaimInput(claim, owner)
  }

  /** An operation reads known domains only and claims only what its owner is granted. */
  ghost predicate InputResolves(operation: OperationInput, owner: string, domains: set<string>,
                                claims: seq<ClaimInput>) {
    && (operation.inputs.Some? ==> forall d :: d in operation.inputs.value ==> d in domains)
    && forall c :: c in operation.claims ==> Granted(claims, c, owner)
  }

  ghost predicate AllResolve(input: ContractInput) {
    forall i, k :: 0 <= i < |input.owners| && 0 <= k < |input.owners[i].operations| ==>
      InputResolves(input.owners[i].operations[k], input.owners[i].owner,
                    AllTaken(input.owners, |input.owners|).domains, input.claims)
  }

  ghost predicate ValidContract(input: ContractInput) {
    && input.owners != [] && OwnersOk(input.owners, |input.owners|)
    && ClaimsOk(input.claims, |input.claims|, AllTaken(input.owners, |input.owners|).owners)
    && AllResolve(input)
    && GrantsOk(input.grants, |input.grants|, AllTaken(input.owners, |input.owners|).owners)
  }

  /** The checks of the last loop, over the maps built so far. */
  predicate CapabilitiesResolve(owners: map<string, Capability>, domains: set<string>,
                                authorities: map<string, string>) {
    forall owner, id :: owner in owners && id in owners[owner].operations ==>
      Resolves(owners[owner].operations[id], owner, domains, authorities)
  }

  lemma GrantedAgrees(claims: seq<ClaimInput>, authorities: map<string, string>, claim: string, owner: string)
    requires Authorities(claims, |claims|, authorities)
    ensures Granted(claims, claim, owner) <==> claim in authorities && authorities[claim] == owner
  {
    if claim in authorities {
      var i :| 0 <= i < |claims| && claims[i].claim == claim;
      assert claims[i] == ClaimInput(claim, authorities[claim]);
    }
  }

  lemma OneResolves(operation: OperationInput, owner: string, domains: set<string>, claims: seq<ClaimInput>,
                    authorities: map<string, string>)
    requires Authorities(claims, |claims|, authorities)
    ensures Resolves(OperationOf(operation), owner, domains, authorities) <==>
      InputResolves(operation, owner, domains, claims)
  {
    forall c ensures Granted(claims, c, owner) <==> c in authorities && authorities[c] == owner {
      GrantedAgrees(claims, authorities, c, owner);
    }
    assert forall c :: c in Names(operation.claims) <==> c in operation.claims;
    if operation.inputs.Some? {
      assert forall d :: d in Names(operation.inputs.value) <==> d in operation.inputs.value;
    }
  }

  lemma InputsResolve(input: ContractInput, owners: map<string, Capability>, authorities: map<string, string>,
                      owner: string, id: string)
    requires RepresentsAll(input.owners, |input.owners|, owners)
    requires Authorities(input.claims, |input.claims|, authorities) && AllResolve(input)
    requires owner in owners && id in owners[owner].operations
    ensures Resolves(owners[owner].operations[id], owner, AllTaken(input.owners, |input.owners|).domains, authorities)
  {
    var i :| 0 <= i < |input.owners| && input.owners[i].owner == owner;
    assert Represents(input.owners[i], owners[owner]);
    var k :| 0 <= k < |input.owners[i].operations| && input.owners[i].operations[k].id == id;
    OneResolves(input.owners[i].operations[k], owner, AllTaken(input.owners, |input.owners|).domains, input.claims,
                authorities);
  }

  lemma CapabilityResolves(input: ContractInput, owners: map<string, Capability>, authorities: map<string, string>,
                           i: nat, k: nat)
    requires RepresentsAll(input.owners, |input.owners|, owners)
    requires Authorities(input.claims, |input.claims|, authorities)
    requires CapabilitiesResolve(owners, AllTaken(input.owners, |input.owners|).domains, authorities)
    requires i < |input.owners| && k < |input.owners[i].operations|
    ensures InputResolves(input.owners[i].operations[k], input.owners[i].owner,
                          AllTaken(input.owners, |input.owners|).domains, input.claims)
  {
    var o := input.owners[i];
    assert o.owner in owners && Represents(o, owners[o.owner]);
    assert o.operations[k].id in owners[o.owner].operations;
    OneResolves(o.operations[k], o.owner, AllTaken(input.owners, |input.owners|).domains, input.claims, authorities);
  }

  lemma ResolvesAgrees(input: ContractInput, owners: map<string, Capability>, authorities: map<string, string>)
    requires RepresentsAll(input.owners, |input.owners|, owners)
    requires Authorities(input.claims, |input.claims|, authorities)
    ensures CapabilitiesResolve(owners, AllTaken(input.owners, |input.owners|).domains, authorities) <==>
      AllResolve(input)
  {
    if AllResolve(input) {
      forall owner, id | owner in owners && id in owners[owner].operations
        ensures Resolves(owners[owner].operations[id], owner, AllTaken(input.owners, |input.owners|).domains,
                         authorities)
      {
        InputsResolve(input, owners, authorities, owner, id);
      }
    } else {
      var i, k :| 0 <= i < |input.owners| && 0 <= k < |input.owners[i].operations|
        && !InputResolves(input.owners[i].operations[k], input.owners[i].owner,
                          AllTaken(input.owners, |input.owners|).domains, input.claims);
      if CapabilitiesResolve(owners, AllTaken(input.owners, |input.owners|).domains, authorities) {
        CapabilityResolves(input, owners, authorities, i, k);
      }
    }
  }

  lemma {:induction false} TakenOnce(owners: seq<OwnerInput>, i: nat, n: nat)
    requires i < n <= |owners|
    ensures var all, one := AllTaken(owners, n), TakenBy(owners[i]);
      && one.owners <= all.owners && one.domains <= all.domains && one.effects <= all.effects
      && one.operations <= all.operations && one.requests <= all.requests
  {
    if i < n - 1 {
      TakenOnce(owners, i, n - 1);
    }
  }

  /** In a valid contract no two owners share an owner name, a domain, an effect, an operation
      or a kind of request. */
  lemma NamesHaveOneOwner(input: ContractInput, i: nat, j: nat)
    requires ValidContract(input) && i < j < |input.owners|
    ensures Apart(TakenBy(input.owners[i]), TakenBy(input.owners[j]))
  {
    TakenOnce(input.owners, i, j);
    assert OwnerFits(input.owners, j);
  }

  lemma OwnerIsWellFormed(o: OwnerInput, c: Capability, id: string, e: string)
    requires OwnerOk(o) && Represents(o, c) && id in c.operations && e in c.operations[id].effects
    ensures e in c.effects && c.effects[e] in c.domains
  {
    var k :| 0 <= k < |o.operations| && o.operations[k].id == id;
    assert OperationOk(o.operations[k], Names(EffectIds(o.effects)));
    assert e in o.operations[k].effects && e in EffectIds(o.effects);
    var j :| 0 <= j < |o.effects| && EffectIds(o.effects)[j] == e;
    assert o.effects[j].domain in o.domains;
  }

  lemma OneIsWellFormed(input: seq<OwnerInput>, owners: map<string, Capability>, owner: string, id: string, e: string)
    requires OwnersOk(input, |input|) && RepresentsAll(input, |input|, owners)
    requires owner in owners && id in owners[owner].operations && e in owners[owner].operations[id].effects
    ensures e in owners[owner].effects && owners[owner].effects[e] in owners[owner].domains
  {
    var i :| 0 <= i < |input| && input[i].owner == owner;
    assert OwnerFits(input, i) && Represents(input[i], owners[owner]);
    OwnerIsWellFormed(input[i], owners[owner], id, e);
  }

  lemma RepresentedIsWellFormed(input: seq<OwnerInput>, contract: Contract)
    requires OwnersOk(input, |input|) && RepresentsAll(input, |input|, contract.owners)
    ensures WellFormed(contract)
  {
    forall owner, id, e | owner in contract.owners && id in contract.owners[owner].operations
                          && e in contract.owners[owner].operations[id].effects
      ensures e in contract.owners[owner].effects
              && contract.owners[owner].effects[e] in contract.owners[owner].domains
    {
      OneIsWellFormed(input, contract.owners, owner, id, e);
    }
  }

  /** Succeeds exactly for a valid contract, with every declaration represented; then every
      effect an operation advertises has a domain of its owner. */
  method NormalizeContract(input: ContractInput) returns (result: Option<Contract>)
    ensures result.Some? <==> ValidContract(input)
    ensures result.Some? ==>
      && RepresentsAll(input.owners, |input.owners|, result.value.owners)
      && Authorities(input.claims, |input.claims|, result.value.claimAuthorities)
      && Restrictions(input.grants, |input.grants|, result.value.restrictions)
      && WellFormed(result.value)
  {
    var owners := NormalizeOwners(input.owners);
    if owners.None? || input.owners == [] {
      return None;
    }
    var (capabilities, taken) := owners.value;
    var authorities := NormalizeClaims(input.claims, taken.owners);
    if authorities.None? {
      return None;
    }
    ResolvesAgrees(input, capabilities, authorities.value);
    if !CapabilitiesResolve(capabilities, taken.domains, authorities.value) {
      return None;
    }
    var restrictions := NormalizeGrants(input.grants, taken.owners);
    if restrictions.None? {
      return None;
    }
    var contract := Contract(capabilities, authorities.value, restrictions.value);
    RepresentedIsWellFormed(input.owners, contract);
    result := Some(contract);
  }

  // ----- a valid contract, name by name -----

  datatype Kind = OwnerName | Domain | Effect | OperationName | Request

  function NamesOf(o: OwnerInput, kind: Kind): seq<string> {
    match kind
    case OwnerName => [o.owner]
    case Domain => o.domains
    case Effect => EffectIds(o.effects)
    case OperationName => OperationIds(o.operations)
    case Request => o.requests
  }

  function TakenOf(t: Taken, kind: Kind): set<string> {
    match kind
    case OwnerName => t.owners
    case Domain => t.domains
    case Effect => t.effects
    case OperationName => t.operations
    case Request => t.requests
  }

  lemma {:induction false} TakenExactly(owners: seq<OwnerInput>, n: nat, kind: Kind, x: string)
    requires n <= |owners|
    ensures x in TakenOf(AllTaken(owners, n), kind) <==> exists j :: 0 <= j < n && x in NamesOf(owners[j], kind)
  {
    if n > 0 {
      TakenExactly(owners, n - 1, kind, x);
      assert x in TakenOf(TakenBy(owners[n - 1]), kind) <==> x in NamesOf(owners[n - 1], kind);
    }
  }

  /** No owner repeats a name of this kind, no other owner has it, and none is empty. */
  ghost predicate DeclaredOnce(owners: seq<OwnerInput>, kind: Kind) {
    && (forall i, a :: 0 <= i < |owners| && 0 <= a < |NamesOf(owners[i], kind)| ==> NamesOf(owners[i], kind)[a] != "")
    && forall i, a, j, b ::
         0 <= i < |owners| && 0 <= j < |owners| && 0 <= a < |NamesOf(owners[i], kind)| &&
         0 <= b < |NamesOf(owners[j], kind)| && NamesOf(owners[i], kind)[a] == NamesOf(owners[j], kind)[b] ==>
           i == j && a == b
  }

  ghost predicate InTurn(owners: seq<OwnerInput>, i: nat, kind: Kind)
    requires i < |owners|
  {
    Unique(NamesOf(owners[i], kind)) && TakenOf(AllTaken(owners, i), kind) !! TakenOf(TakenBy(owners[i]), kind)
  }

  ghost predicate TakenInTurn(owners: seq<OwnerInput>, kind: Kind) {
    forall i :: 0 <= i < |owners| ==> InTurn(owners, i, kind)
  }

  lemma InTurnMeansOnce(owners: seq<OwnerInput>, kind: Kind, i: nat, a: nat, j: nat, b: nat)
    requires TakenInTurn(owners, kind) && i <= j < |owners|
    requires a < |NamesOf(owners[i], kind)| && b < |NamesOf(owners[j], kind)|
    requires NamesOf(owners[i], kind)[a] == NamesOf(owners[j], kind)[b]
    ensures i == j && a == b
  {
    var x := NamesOf(owners[i], kind)[a];
    assert InTurn(owners, j, kind);
    assert x in TakenOf(TakenBy(owners[j]), kind);
    if i < j {
      TakenExactly(owners, j, kind, x);
    }
  }

  lemma OnceExactly(owners: seq<OwnerInput>, kind: Kind)
    ensures TakenInTurn(owners, kind) <==> DeclaredOnce(owners, kind)
  {
    if TakenInTurn(owners, kind) {
      forall i, a | 0 <= i < |owners| && 0 <= a < |NamesOf(owners[i], kind)|
        ensures NamesOf(owners[i], kind)[a] != ""
      {
        assert InTurn(owners, i, kind);
      }
      forall i: nat, a: nat, j: nat, b: nat | i < |owners| && j < |owners| && a < |NamesOf(owners[i], kind)|
          && b < |NamesOf(owners[j], kind)| && NamesOf(owners[i], kind)[a] == NamesOf(owners[j], kind)[b]
        ensures i == j && a == b
      {
        if i <= j { InTurnMeansOnce(owners, kind, i, a, j, b); } else { InTurnMeansOnce(owners, kind, j, b, i, a); }
      }
    }
    if DeclaredOnce(owners, kind) {
      forall i: nat | i < |owners| ensures InTurn(owners, i, kind) {
        OnceMeansInTurn(owners, kind, i);
      }
    }
  }

  lemma OnceMeansInTurn(owners: seq<OwnerInput>, kind: Kind, i: nat)
    requires DeclaredOnce(owners, kind) && i < |owners|
    ensures InTurn(owners, i, kind)
  {
    forall x | x in NamesOf(owners[i], kind) ensures x !in TakenOf(AllTaken(owners, i), kind) {
      TakenExactly(owners, i, kind, x);
    }
    forall x ensures x in TakenOf(TakenBy(owners[i]), kind) <==> x in NamesOf(owners[i], kind) {
    }
  }

  ghost predicate Distinct(names: seq<string>) {
    "" !in names && forall i, j :: 0 <= i < |names| && 0 <= j < |names| && names[i] == names[j] ==> i == j
  }

  /** What an operation says of itself: its lists repeat nothing and its effects are its owner's. */
  ghost predicate OperationStands(o: OwnerInput, k: nat)
    requires k < |o.operations|
  {
    var operation := o.operations[k];
    && Distinct(operation.effects) && Distinct(operation.claims)
    && (operation.inputs.Some? ==> Distinct(operation.inputs.value))
    && forall e :: e in operation.effects ==> exists l :: 0 <= l < |o.effects| && o.effects[l].id == e
  }

  ghost predicate OwnerStands(o: OwnerInput) {
    && (forall k :: 0 <= k < |o.effects| ==> o.effects[k].domain in o.domains)
    && forall k :: 0 <= k < |o.operations| ==> OperationStands(o, k)
  }

  lemma OperationExactly(o: OwnerInput, k: nat)
    requires k < |o.operations|
    ensures OperationOk(o.operations[k], Names(EffectIds(o.effects))) <==> OperationStands(o, k)
  {
    forall e ensures e in Names(EffectIds(o.effects)) <==> exists l :: 0 <= l < |o.effects| && o.effects[l].id == e {
      if e in Names(EffectIds(o.effects)) {
        var l :| 0 <= l < |o.effects| && EffectIds(o.effects)[l] == e;
      }
      if l :| 0 <= l < |o.effects| && o.effects[l].id == e {
        assert EffectIds(o.effects)[l] == e;
      }
    }
  }

  lemma OwnerExactly(o: OwnerInput)
    ensures OwnerOk(o) <==> OwnerStands(o) && forall kind :: Unique(NamesOf(o, kind))
  {
    forall k: nat | k < |o.operations|
      ensures OperationOk(o.operations[k], Names(EffectIds(o.effects))) <==> OperationStands(o, k)
    {
      OperationExactly(o, k);
    }
    if OwnerOk(o) {
      forall kind ensures Unique(NamesOf(o, kind)) {
        match kind { case OwnerName => case Domain => case Effect => case OperationName => case Request => }
      }
    }
    if forall kind :: Unique(NamesOf(o, kind)) {
      assert Unique(NamesOf(o, OwnerName)) && Unique(NamesOf(o, Domain)) && Unique(NamesOf(o, Effect))
        && Unique(NamesOf(o, OperationName)) && Unique(NamesOf(o, Request));
      assert NamesOf(o, OwnerName)[0] == o.owner;
    }
  }

  lemma ApartExactly(a: Taken, b: Taken)
    ensures Apart(a, b) <==> forall kind :: TakenOf(a, kind) !! TakenOf(b, kind)
  {
    if forall kind :: TakenOf(a, kind) !! TakenOf(b, kind) {
      assert TakenOf(a, OwnerName) !! TakenOf(b, OwnerName) && TakenOf(a, Domain) !! TakenOf(b, Domain)
        && TakenOf(a, Effect) !! TakenOf(b, Effect) && TakenOf(a, OperationName) !! TakenOf(b, OperationName)
        && TakenOf(a, Request) !! TakenOf(b, Request);
    }
  }

  /** The owners are admitted exactly when every name of every kind is declared once among all of
      them, and each owner's effects and operations stand on its own declarations. */
  lemma OwnersExactly(owners: seq<OwnerInput>)
    ensures OwnersOk(owners, |owners|) <==>
      && (forall kind :: DeclaredOnce(owners, kind))
      && forall i :: 0 <= i < |owners| ==> OwnerStands(owners[i])
  {
    forall kind ensures TakenInTurn(owners, kind) <==> DeclaredOnce(owners, kind) {
      OnceExactly(owners, kind);
    }
    forall i: nat | i < |owners|
      ensures OwnerFits(owners, i) <==> OwnerStands(owners[i]) && forall kind :: InTurn(owners, i, kind)
    {
      FitsExactly(owners, i);
    }
    if forall kind :: DeclaredOnce(owners, kind) {
      forall i, kind | 0 <= i < |owners| ensures InTurn(owners, i, kind) {
        assert TakenInTurn(owners, kind);
      }
    }
    if OwnersOk(owners, |owners|) {
      forall i | 0 <= i < |owners| ensures OwnerStands(owners[i]) {
        assert OwnerFits(owners, i);
      }
      forall kind, i | 0 <= i < |owners| ensures InTurn(owners, i, kind) {
        assert OwnerFits(owners, i);
      }
    }
  }

  lemma FitsExactly(owners: seq<OwnerInput>, i: nat)
    requires i < |owners|
    ensures OwnerFits(owners, i) <==> OwnerStands(owners[i]) && forall kind :: InTurn(owners, i, kind)
  {
    OwnerExactly(owners[i]);
    ApartExactly(AllTaken(owners, i), TakenBy(owners[i]));
    if forall kind :: InTurn(owners, i, kind) {
      forall kind ensures Unique(NamesOf(owners[i], kind)) {
        assert InTurn(owners, i, kind);
      }
      forall kind ensures TakenOf(AllTaken(owners, i), kind) !! TakenOf(TakenBy(owners[i]), kind) {
        assert InTurn(owners, i, kind);
      }
    }
  }

  ghost predicate IsOwner(owners: seq<OwnerInput>, name: string) {
    exists j :: 0 <= j < |owners| && owners[j].owner == name
  }

  ghost predicate Prefixed(s: string, kind: string) {
    exists rest :: rest != "" && s == kind + rest
  }

  lemma PrefixExactly(s: string, kind: string)
    ensures HasPrefix(s, kind) <==> Prefixed(s, kind)
  {
    if kind < s {
      assert s == kind + s[|kind|..];
    }
  }

  /** The one scope of the whole work, or one thing named after its kind. */
  ghost predicate ScopeText(s: string) {
    || s == "task" || Prefixed(s, "action:") || Prefixed(s, "decision:") || Prefixed(s, "effect:")
    || Prefixed(s, "claim:") || Prefixed(s, "outcome:") || Prefixed(s, "attestation:")
  }

  lemma ScopeExactly(s: string)
    ensures Scope(s) <==> ScopeText(s)
  {
    forall kind ensures HasPrefix(s, kind) <==> Prefixed(s, kind) {
      PrefixExactly(s, kind);
    }
  }

  /** An operation reads domains some owner declares and advertises claims granted to its own. */
  ghost predicate ReadsAndClaims(input: ContractInput, i: nat, operation: OperationInput)
    requires i < |input.owners|
  {
    && (operation.inputs.Some? ==> forall d :: d in operation.inputs.value ==>
          exists j :: 0 <= j < |input.owners| && d in input.owners[j].domains)
    && forall c :: c in operation.claims ==> ClaimInput(c, input.owners[i].owner) in input.claims
  }

  /** What a contract declares, one by one. */
  ghost predicate Declares(input: ContractInput) {
    && input.owners != []
    && (forall kind :: DeclaredOnce(input.owners, kind))
    && (forall i :: 0 <= i < |input.owners| ==> OwnerStands(input.owners[i]))
    && (forall i, k :: 0 <= i < |input.owners| && 0 <= k < |input.owners[i].operations| ==>
          ReadsAndClaims(input, i, input.owners[i].operations[k]))
    && (forall i :: 0 <= i < |input.claims| ==>
        input.claims[i].claim != "" && IsOwner(input.owners, input.claims[i].owner))
    && (forall i, j :: 0 <= i < j < |input.claims| ==> input.claims[i].claim != input.claims[j].claim)
    && (forall i :: 0 <= i < |input.grants| ==>
          && IsOwner(input.owners, input.grants[i].owner) && input.grants[i].affects != []
          && forall s :: s in input.grants[i].affects ==> ScopeText(s))
    && forall i, j :: 0 <= i < j < |input.grants| ==> input.grants[i].owner != input.grants[j].owner
  }

  lemma IsOwnerExactly(owners: seq<OwnerInput>, name: string)
    ensures IsOwner(owners, name) <==> name in AllTaken(owners, |owners|).owners
  {
    TakenExactly(owners, |owners|, OwnerName, name);
  }

  lemma ReadsExactly(input: ContractInput, i: nat, operation: OperationInput)
    requires i < |input.owners|
    ensures InputResolves(operation, input.owners[i].owner, AllTaken(input.owners, |input.owners|).domains,
                          input.claims)
      <==> ReadsAndClaims(input, i, operation)
  {
    forall d ensures d in AllTaken(input.owners, |input.owners|).domains <==>
        exists j :: 0 <= j < |input.owners| && d in input.owners[j].domains {
      TakenExactly(input.owners, |input.owners|, Domain, d);
      assert forall j :: 0 <= j < |input.owners| ==> NamesOf(input.owners[j], Domain) == input.owners[j].domains;
    }
  }

  /** A contract is valid exactly when every name is declared once and everything an operation, a
      claim or a grant refers to is declared. */
  lemma ValidExactly(input: ContractInput)
    ensures ValidContract(input) <==> Declares(input)
  {
    OwnersExactly(input.owners);
    forall i: nat, k: nat | i < |input.owners| && k < |input.owners[i].operations|
      ensures InputResolves(input.owners[i].operations[k], input.owners[i].owner,
                            AllTaken(input.owners, |input.owners|).domains, input.claims)
        <==> ReadsAndClaims(input, i, input.owners[i].operations[k])
    {
      ReadsExactly(input, i, input.owners[i].operations[k]);
    }
    forall name ensures IsOwner(input.owners, name) <==> name in AllTaken(input.owners, |input.owners|).owners {
      IsOwnerExactly(input.owners, name);
    }
    forall s ensures Scope(s) <==> ScopeText(s) {
      ScopeExactly(s);
    }
  }
}
