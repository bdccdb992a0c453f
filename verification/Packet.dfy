/** Sealing of assignment packets (src/core/src/assignment_packet.rs): a packet carries its
    own hash in three places, so the hash is taken with those places blanked. */
module Packet {
  import opened Wrappers

  /** The member names a packet's code reads or writes, and any other name. */
  datatype Key =
    | PacketIntegrity | ReturnContract | RequiredIdentity | WorkerContext | RequiredFields | Required | ReadFirst
    | LazyExpansionRule | Id | Revision | RunId | Target | Outcome | TaskClass | Role | Kind | Assignment | Intent
    | Scope | Class | AllowedPaths | Effects | Allowed | Prohibited | Inputs | Proof | ObligationId
    | ObligationRevision | WorkerAuthority | StopConditions | Authority | SemanticSource | ClaimAuthority
    | ScopeWideningAllowed | AssignmentId | AssignmentRevision | RequiredInputs | InputCapsule | Capsule
    | TaskRequirements | SourceWork | HumanIntent | AssignmentIdentity | ScopeClass | AllowedEffects
    | ProhibitedEffects | ProofObligationId | ProofObligationRevision
    | Other(name: string)

  /** JSON. A number is its literal; `portable` says that its canonical encoding is settled. */
  datatype Value =
    | Null
    | Bool(flag: bool)
    | Num(literal: string, portable: bool)
    | Str(text: string)
    | Arr(items: seq<Value>)
    | Obj(fields: map<Key, Value>)

  datatype Error = NotAnObject | Encoding | Unstable

  /** The two hash functions: of the value's own bytes, and of its canonical encoding. */
  datatype Hashes = Hashes(legacy: Value -> string, compact: Value -> string)
  {
    /** Every hash text starts with its scheme. */
    ghost predicate Named() {
      forall v :: legacy(v) != "" && compact(v) != ""
    }

    /** Neither function collides, with itself or with the other. */
    ghost predicate CollisionFree() {
      && (forall v, w :: legacy(v) == legacy(w) ==> v == w)
      && (forall v, w :: compact(v) == compact(w) ==> v == w)
      && forall v, w :: legacy(v) == compact(w) ==> v == w
    }
  }

  const SEALED := ["assignment_id", "packet_integrity", "result_delivery"]

  // ----- reading and writing values -----

  function Get(v: Value, key: Key): Value {
    if v.Obj? && key in v.fields then v.fields[key] else Null
  }

  function Set(v: Value, key: Key, x: Value): (r: Value)
    requires v.Obj?
    ensures r.Obj? && r.fields == v.fields[key := x] && Get(r, key) == x
  {
    Obj(v.fields[key := x])
  }

  predicate White(c: char) {
    || '\U{0009}' <= c <= '\U{000D}' || c == '\U{0020}' || c == '\U{0085}' || c == '\U{00A0}' || c == '\U{1680}'
    || '\U{2000}' <= c <= '\U{200A}' || c == '\U{2028}' || c == '\U{2029}' || c == '\U{202F}' || c == '\U{205F}'
    || c == '\U{3000}'
  }

  function Trim(s: string): string {
    if s != [] && White(s[0]) then Trim(s[1..])
    else if s != [] && White(s[|s| - 1]) then Trim(s[..|s| - 1])
    else s
  }

  function Text(v: Value): string {
    if v.Str? then Trim(v.text) else ""
  }

  function List(v: Value): Value {
    if v.Arr? then v else Arr([])
  }

  function Object(v: Value): Value {
    if v.Obj? then v else Obj(map[])
  }

  // ----- the worker's view of a packet -----

  function FirstText(v: Value, w: Value): string {
    if Text(v) == "" then Text(w) else Text(v)
  }

  const LAZY: Value :=
    Str("Read only these exact references first; request or resolve deeper context only when the assignment requires it.")

  function InputsBase(i: Value): (r: Value)
    ensures r.Obj?
  {
    Obj(map[Required := List(Get(i, RequiredInputs)), ReadFirst := List(Get(i, ReadFirst)), LazyExpansionRule := LAZY])
  }

  function InputsPart(i: Value): (r: Value)
    ensures r.Obj?
  {
    var base := InputsBase(i);
    var capsule := if Get(i, InputCapsule).Null? then base else Set(base, Capsule, Get(i, InputCapsule));
    var needs := if Get(i, TaskRequirements).Null? then capsule
        else Set(capsule, TaskRequirements, Get(i, TaskRequirements));
    if Get(i, SourceWork).Obj? then Set(needs, SourceWork, Get(i, SourceWork)) else needs
  }

  function AssignmentPart(packet: Value, i: Value): Value {
    Obj(map[
      Id := Str(Text(Get(packet, AssignmentId))),
      Revision := Str(FirstText(Get(packet, AssignmentRevision), Get(i, Revision))),
      RunId := Str(Text(Get(packet, RunId))),
      Target := Str(FirstText(Get(packet, Target), Get(i, Target)))])
  }

  function IntentPart(i: Value): Value {
    Obj(map[
      Outcome := Str(Text(Get(i, HumanIntent))),
      TaskClass := Str(Text(Get(i, TaskClass))),
      Role := Str(Text(Get(i, Role)))])
  }

  /** The context without the return contract: it reads neither the contract nor a seal. */
  function ContextBody(packet: Value): (r: Value)
    ensures r.Obj?
  {
    Body(AssignmentPart(packet, Get(packet, AssignmentIdentity)), Get(packet, AssignmentIdentity))
  }

  function ScopePart(i: Value): Value {
    Obj(map[Class := Str(Text(Get(i, ScopeClass))), AllowedPaths := List(Get(i, AllowedPaths))])
  }

  function EffectsPart(i: Value): Value {
    Obj(map[Allowed := List(Get(i, AllowedEffects)), Prohibited := List(Get(i, ProhibitedEffects))])
  }

  function ProofPart(i: Value): Value {
    Obj(map[
      ObligationId := Str(Text(Get(i, ProofObligationId))),
      ObligationRevision := Str(Text(Get(i, ProofObligationRevision))),
      WorkerAuthority := Bool(false)])
  }

  function AuthorityPart(i: Value): Value {
    Obj(map[
      SemanticSource := Str("canonical-assignment-identity"),
      ClaimAuthority := Object(Get(i, ClaimAuthority)),
      ScopeWideningAllowed := Bool(false)])
  }

  function Body(assignment: Value, i: Value): (r: Value)
    ensures r.Obj?
  {
    Parts(assignment, IntentPart(i), ScopePart(i), EffectsPart(i), InputsPart(i), ProofPart(i),
          List(Get(i, StopConditions)), AuthorityPart(i))
  }

  function Parts(assignment: Value, intent: Value, scope: Value, effects: Value, inputs: Value, proof: Value,
                 stops: Value, authority: Value): (r: Value)
    ensures r.Obj?
  {
    Obj(map[
      Kind := Str("agentic-workspace/assignment-worker-context/v1"),
      Assignment := assignment, Intent := intent, Scope := scope, Effects := effects, Inputs := inputs,
      Proof := proof, StopConditions := stops, Authority := authority])
  }

  function ContextOf(packet: Value): (r: Value)
    ensures r.Obj?
  {
    Set(ContextBody(packet), ReturnContract, Object(Get(packet, ReturnContract)))
  }

  // ----- integrity -----

  /** Blank the seal inside `v.return_contract.required_identity`, if there is one. */
  function BlankIdentity(v: Value): (r: Value)
    ensures v.Obj? ==> r.Obj?
  {
    var contract := Get(v, ReturnContract);
    var identity := Get(contract, RequiredIdentity);
    if identity.Obj? then Set(v, ReturnContract,
                              Set(contract, RequiredIdentity, Set(identity, PacketIntegrity, Str("")))) else v
  }

  /** The subject of the hash. */
  function Blank(packet: Value): (r: Value)
    requires packet.Obj?
    ensures r.Obj?
  {
    var outer := BlankIdentity(Set(packet, PacketIntegrity, Str("")));
    if WorkerContext in outer.fields then Set(outer, WorkerContext, BlankIdentity(Get(outer, WorkerContext))) else outer
  }

  /** No number in the value lacks a settled encoding. */
  predicate Portable(v: Value) {
    match v
    case Num(_, portable) => portable
    case Arr(items) => forall k :: 0 <= k < |items| ==> Portable(items[k])
    case Obj(fields) => forall key :: key in fields ==> Portable(fields[key])
    case _ => true
  }

  function IntegrityOf(packet: Value, h: Hashes): Result<string, Error> {
    if !packet.Obj? then Err(NotAnObject)
    else if Get(packet, PacketIntegrity) == Str(h.legacy(Blank(packet))) then Ok(h.legacy(Blank(packet)))
    else if Portable(Blank(packet)) then Ok(h.compact(Blank(packet)))
    else Err(Encoding)
  }

  method Integrity(packet: Value, h: Hashes) returns (r: Result<string, Error>)
    ensures r == IntegrityOf(packet, h)
  {
    var subject := packet;
    if !subject.Obj? {
      return Err(NotAnObject);
    }
    subject := Set(subject, PacketIntegrity, Str(""));
    subject := BlankIdentity(subject);
    if WorkerContext in subject.fields {
      subject := Set(subject, WorkerContext, BlankIdentity(Get(subject, WorkerContext)));
    }
    var legacy := h.legacy(subject);
    if Get(packet, PacketIntegrity) == Str(legacy) {
      return Ok(legacy);
    }
    if !Portable(subject) {
      return Err(Encoding);
    }
    r := Ok(h.compact(subject));
  }

  // ----- sealing -----

  function WithField(items: seq<Value>, field: string): seq<Value> {
    if Str(field) in items then items else items + [Str(field)]
  }

  /** The list with each name appended unless it is there. */
  function WithFields(items: seq<Value>, names: seq<string>): seq<Value> {
    if names == [] then items else WithField(WithFields(items, names[..|names| - 1]), names[|names| - 1])
  }

  function FieldsOf(contract: Value): seq<Value> {
    var given := Get(contract, RequiredFields);
    var items := if given.Arr? then given.items else [];
    WithFields(items, SEALED)
  }

  /** The identity a return must repeat, without the seal. */
  function IdentityOf(packet: Value): (r: Value)
    ensures r.Obj?
  {
    Obj(map[
      AssignmentId := Get(packet, AssignmentId),
      AssignmentRevision := Get(packet, AssignmentRevision),
      RunId := Get(packet, RunId),
      Target := Get(packet, Target)])
  }

  /** The packet's contract without the identity a return must repeat. */
  function ContractOf(packet: Value): (r: Value)
    ensures r.Obj?
  {
    Set(Object(Get(packet, ReturnContract)), RequiredFields, Arr(FieldsOf(Get(packet, ReturnContract))))
  }

  function WithIdentity(contract: Value, identity: Value, seal: string): (r: Value)
    requires contract.Obj? && identity.Obj?
    ensures r.Obj?
  {
    Set(contract, RequiredIdentity, Set(identity, PacketIntegrity, Str(seal)))
  }

  /** A packet that carries `seal` in three places. */
  function Carrying(packet: Value, contract: Value, identity: Value, body: Value, seal: string): (r: Value)
    requires packet.Obj? && contract.Obj? && identity.Obj? && body.Obj?
    ensures r.Obj?
  {
    var sealed := WithIdentity(contract, identity, seal);
    Set(Set(Set(packet, ReturnContract, sealed), PacketIntegrity, Str(seal)), WorkerContext,
        Set(body, ReturnContract, sealed))
  }

  /** The packet sealed with `seal`. */
  function Sealed(packet: Value, seal: string): (r: Value)
    requires packet.Obj?
    ensures r.Obj?
  {
    Carrying(packet, ContractOf(packet), IdentityOf(packet), ContextBody(packet), seal)
  }

  predicate PortableBut(v: Value, but: set<Key>)
    requires v.Obj?
  {
    forall key :: key in v.fields && key !in but ==> Portable(v.fields[key])
  }

  /** The parts of a packet that a seal keeps have a settled encoding. */
  predicate Encodable(packet: Value)
    requires packet.Obj?
  {
    && PortableBut(packet, {PacketIntegrity, ReturnContract, WorkerContext})
    && var contract := Object(Get(packet, ReturnContract));
       PortableBut(contract, {RequiredIdentity, RequiredFields}) && Portable(List(Get(contract, RequiredFields)))
  }

  function SealOf(packet: Value, h: Hashes): Result<Value, Error> {
    if !packet.Obj? then Err(NotAnObject)
    else if !Encodable(packet) then Err(Encoding)
    else Ok(Sealed(packet, h.compact(Sealed(packet, ""))))
  }

  // ----- laws of updates -----

  lemma Overwrite(v: Value, key: Key, x: Value, y: Value)
    requires v.Obj?
    ensures Set(Set(v, key, x), key, y) == Set(v, key, y)
  {
    assert Set(Set(v, key, x), key, y).fields == Set(v, key, y).fields;
  }

  lemma Swap(v: Value, j: Key, k: Key, x: Value, y: Value)
    requires v.Obj? && j != k
    ensures Set(Set(v, j, x), k, y) == Set(Set(v, k, y), j, x)
  {
    assert v.fields[j := x][k := y] == v.fields[k := y][j := x];
  }

  lemma PortableSet(v: Value, key: Key, x: Value, but: set<Key>)
    requires v.Obj? && key !in but
    ensures PortableBut(Set(v, key, x), but) <==> Portable(x) && PortableBut(v, but + {key})
  {
    var r := Set(v, key, x);
    if PortableBut(r, but) {
      assert Portable(r.fields[key]);
      forall k | k in v.fields && k !in but + {key} ensures Portable(v.fields[k]) {
        assert r.fields[k] == v.fields[k];
      }
    }
  }

  // ----- what a seal changes -----

  lemma ContextIgnoresSeals(p: Value, q: Value)
    requires forall key :: key !in {PacketIntegrity, ReturnContract, WorkerContext} ==> Get(p, key) == Get(q, key)
    ensures ContextBody(p) == ContextBody(q)
  {
  }

  lemma BlankSeal(v: Value, contract: Value, identity: Value, seal: string)
    requires v.Obj? && contract.Obj? && identity.Obj?
    ensures BlankIdentity(Set(v, ReturnContract, WithIdentity(contract, identity, seal)))
         == Set(v, ReturnContract, WithIdentity(contract, identity, ""))
  {
    var sealed := WithIdentity(contract, identity, seal);
    var named := Set(identity, PacketIntegrity, Str(seal));
    Overwrite(identity, PacketIntegrity, Str(seal), Str(""));
    Overwrite(contract, RequiredIdentity, named, Set(named, PacketIntegrity, Str("")));
    Overwrite(v, ReturnContract, sealed, WithIdentity(contract, identity, ""));
  }

  /** The hash subject of a packet sealed with anything is the packet sealed with nothing. */
  lemma BlankCarrying(packet: Value, contract: Value, identity: Value, body: Value, seal: string)
    requires packet.Obj? && contract.Obj? && identity.Obj? && body.Obj?
    ensures Blank(Carrying(packet, contract, identity, body, seal)) == Carrying(packet, contract, identity, body, "")
  {
    var sealed, blank := WithIdentity(contract, identity, seal), WithIdentity(contract, identity, "");
    var context, context' := Set(body, ReturnContract, sealed), Set(body, ReturnContract, blank);
    var inner := Set(packet, ReturnContract, sealed);
    var outer := Set(Set(packet, PacketIntegrity, Str("")), WorkerContext, context);
    assert Set(Set(Set(inner, PacketIntegrity, Str(seal)), WorkerContext, context), PacketIntegrity, Str("")).fields
        == Set(outer, ReturnContract, sealed).fields;
    BlankSeal(outer, contract, identity, seal);
    BlankSeal(body, contract, identity, seal);
    assert Set(Set(outer, ReturnContract, blank), WorkerContext, context').fields
        == Set(Set(Set(packet, ReturnContract, blank), PacketIntegrity, Str("")), WorkerContext, context').fields;
  }

  lemma {:induction false} FieldsStay(items: seq<Value>, names: seq<string>)
    ensures items <= WithFields(items, names)
    ensures forall k :: 0 <= k < |names| ==> Str(names[k]) in WithFields(items, names)
    ensures Portable(Arr(items)) <==> Portable(Arr(WithFields(items, names)))
  {
    if names != [] {
      var shorter := WithFields(items, names[..|names| - 1]);
      FieldsStay(items, names[..|names| - 1]);
      assert shorter <= WithFields(items, names);
    }
  }

  lemma {:induction false} NothingToAdd(items: seq<Value>, names: seq<string>)
    requires forall k :: 0 <= k < |names| ==> Str(names[k]) in items
    ensures WithFields(items, names) == items
  {
    if names != [] {
      NothingToAdd(items, names[..|names| - 1]);
    }
  }

  /** Adding the required fields again adds nothing. */
  lemma FieldsSettle(contract: Value)
    ensures WithFields(FieldsOf(contract), SEALED) == FieldsOf(contract)
  {
    FieldsStay(List(Get(contract, RequiredFields)).items, SEALED);
    NothingToAdd(FieldsOf(contract), SEALED);
  }

  lemma ContractSettles(packet: Value, identity: Value, seal: string, seal': string, sealed: Value)
    requires packet.Obj? && sealed.Obj? && identity.Obj?
    requires Get(sealed, ReturnContract) == WithIdentity(ContractOf(packet), identity, seal)
    ensures WithIdentity(ContractOf(sealed), identity, seal') == WithIdentity(ContractOf(packet), identity, seal')
  {
    var given, contract := Get(packet, ReturnContract), ContractOf(packet);
    var named, named' := Set(identity, PacketIntegrity, Str(seal)), Set(identity, PacketIntegrity, Str(seal'));
    var fields := Arr(FieldsOf(given));
    FieldsSettle(given);
    var kept := Get(sealed, ReturnContract);
    assert FieldsOf(kept) == FieldsOf(given);
    Swap(contract, RequiredIdentity, RequiredFields, named, fields);
    Overwrite(Object(given), RequiredFields, fields, fields);
    assert ContractOf(sealed) == Set(contract, RequiredIdentity, named);
    Overwrite(contract, RequiredIdentity, named, named');
  }

  /** A seal leaves every other part of the packet as it was. */
  lemma CarryingKeeps(packet: Value, contract: Value, identity: Value, body: Value, seal: string)
    requires packet.Obj? && contract.Obj? && identity.Obj? && body.Obj?
    ensures var r := Carrying(packet, contract, identity, body, seal);
      && Get(r, ReturnContract) == WithIdentity(contract, identity, seal)
      && forall key :: key !in {PacketIntegrity, ReturnContract, WorkerContext} ==> Get(r, key) == Get(packet, key)
  {
  }

  lemma IdentityIgnoresSeals(p: Value, q: Value)
    requires forall key :: key !in {PacketIntegrity, ReturnContract, WorkerContext} ==> Get(p, key) == Get(q, key)
    ensures IdentityOf(p) == IdentityOf(q)
  {
  }

  /** Sealing forgets any earlier seal. */
  lemma Resealed(packet: Value, seal: string, seal': string)
    requires packet.Obj?
    ensures Sealed(Sealed(packet, seal), seal') == Sealed(packet, seal')
  {
    CarryingKeeps(packet, ContractOf(packet), IdentityOf(packet), ContextBody(packet), seal);
    SealedIsCarried(packet, Sealed(packet, seal), seal, seal');
  }

  lemma SealedIsCarried(packet: Value, sealed: Value, seal: string, seal': string)
    requires packet.Obj? && sealed == Sealed(packet, seal)
    requires Get(sealed, ReturnContract) == WithIdentity(ContractOf(packet), IdentityOf(packet), seal)
    requires forall key :: key !in {PacketIntegrity, ReturnContract, WorkerContext} ==>
      Get(sealed, key) == Get(packet, key)
    ensures Sealed(sealed, seal') == Sealed(packet, seal')
  {
    ContextIgnoresSeals(sealed, packet);
    IdentityIgnoresSeals(sealed, packet);
    ContractSettles(packet, IdentityOf(packet), seal, seal', sealed);
    Recarried(packet, ContractOf(packet), ContractOf(sealed), IdentityOf(packet), ContextBody(packet), seal, seal');
  }

  lemma Recarried(packet: Value, contract: Value, contract': Value, identity: Value, body: Value, seal: string,
                  seal': string)
    requires packet.Obj? && contract.Obj? && contract'.Obj? && identity.Obj? && body.Obj?
    requires WithIdentity(contract', identity, seal') == WithIdentity(contract, identity, seal')
    ensures Carrying(Carrying(packet, contract, identity, body, seal), contract', identity, body, seal')
         == Carrying(packet, contract, identity, body, seal')
  {
    var old', new' := WithIdentity(contract, identity, seal), WithIdentity(contract, identity, seal');
    var context, context' := Set(body, ReturnContract, old'), Set(body, ReturnContract, new');
    assert packet.fields[ReturnContract := old'][PacketIntegrity := Str(seal)][WorkerContext := context]
             [ReturnContract := new'][PacketIntegrity := Str(seal')][WorkerContext := context']
        == packet.fields[ReturnContract := new'][PacketIntegrity := Str(seal')][WorkerContext := context'];
  }

  // ----- which packets can be sealed -----

  lemma PortableGet(v: Value, key: Key)
    requires Portable(v)
    ensures Portable(Get(v, key)) && Portable(List(Get(v, key))) && Portable(Object(Get(v, key)))
  {
  }

  lemma BasePortable(i: Value)
    requires Portable(i)
    ensures Portable(InputsBase(i))
  {
    PortableGet(i, RequiredInputs);
    PortableGet(i, ReadFirst);
  }

  lemma StillPortable(v: Value, key: Key, x: Value)
    requires v.Obj? && Portable(v) && Portable(x)
    ensures Portable(Set(v, key, x))
  {
    PortableSet(v, key, x, {});
  }

  lemma InputsPortable(i: Value)
    requires Portable(i)
    ensures Portable(InputsPart(i))
  {
    BasePortable(i);
    PortableGet(i, InputCapsule);
    PortableGet(i, TaskRequirements);
    PortableGet(i, SourceWork);
    var base := InputsBase(i);
    StillPortable(base, Capsule, Get(i, InputCapsule));
    var capsule := if Get(i, InputCapsule).Null? then base else Set(base, Capsule, Get(i, InputCapsule));
    StillPortable(capsule, TaskRequirements, Get(i, TaskRequirements));
    var needs := if Get(i, TaskRequirements).Null? then capsule
        else Set(capsule, TaskRequirements, Get(i, TaskRequirements));
    StillPortable(needs, SourceWork, Get(i, SourceWork));
  }

  lemma SectionsPortable(i: Value)
    requires Portable(i)
    ensures Portable(ScopePart(i)) && Portable(EffectsPart(i)) && Portable(AuthorityPart(i))
  {
    PortableGet(i, AllowedPaths);
    PortableGet(i, AllowedEffects);
    PortableGet(i, ProhibitedEffects);
    PortableGet(i, ClaimAuthority);
  }

  lemma TextsPortable(packet: Value, i: Value)
    ensures Portable(AssignmentPart(packet, i)) && Portable(IntentPart(i)) && Portable(ProofPart(i))
  {
  }

  lemma PartsPortable(assignment: Value, intent: Value, scope: Value, effects: Value, inputs: Value, proof: Value,
                      stops: Value, authority: Value)
    requires Portable(assignment) && Portable(intent) && Portable(scope) && Portable(effects)
    requires Portable(inputs) && Portable(proof) && Portable(stops) && Portable(authority)
    ensures Portable(Parts(assignment, intent, scope, effects, inputs, proof, stops, authority))
  {
  }

  lemma BodyPortable(packet: Value)
    requires Portable(Get(packet, AssignmentIdentity))
    ensures Portable(ContextBody(packet))
  {
    var i := Get(packet, AssignmentIdentity);
    PortableGet(i, StopConditions);
    SectionsPortable(i);
    TextsPortable(packet, i);
    InputsPortable(i);
    PartsPortable(AssignmentPart(packet, i), IntentPart(i), ScopePart(i), EffectsPart(i), InputsPart(i), ProofPart(i),
                  List(Get(i, StopConditions)), AuthorityPart(i));
  }

  lemma BlankSealed(packet: Value, seal: string)
    requires packet.Obj?
    ensures Blank(Sealed(packet, seal)) == Sealed(packet, "")
  {
    BlankCarrying(packet, ContractOf(packet), IdentityOf(packet), ContextBody(packet), seal);
  }

  lemma ThreePortable(packet: Value, sealed: Value, seal: Value, context: Value)
    requires packet.Obj?
    ensures Portable(Set(Set(Set(packet, ReturnContract, sealed), PacketIntegrity, seal), WorkerContext, context)) <==>
      && PortableBut(packet, {PacketIntegrity, ReturnContract, WorkerContext})
      && Portable(sealed) && Portable(seal) && Portable(context)
  {
    var first := Set(packet, ReturnContract, sealed);
    var second := Set(first, PacketIntegrity, seal);
    PortableSet(packet, ReturnContract, sealed, {WorkerContext, PacketIntegrity});
    PortableSet(first, PacketIntegrity, seal, {WorkerContext});
    PortableSet(second, WorkerContext, context, {});
    assert {WorkerContext, PacketIntegrity} + {ReturnContract} == {PacketIntegrity, ReturnContract, WorkerContext};
    assert {} + {WorkerContext} == {WorkerContext};
    assert {WorkerContext} + {PacketIntegrity} == {WorkerContext, PacketIntegrity};
  }

  /** A carrying packet is portable exactly when what it carries is. */
  lemma CarryingPortable(packet: Value, contract: Value, identity: Value, body: Value)
    requires packet.Obj? && contract.Obj? && identity.Obj? && body.Obj?
    ensures Portable(Carrying(packet, contract, identity, body, "")) <==>
      && PortableBut(packet, {PacketIntegrity, ReturnContract, WorkerContext})
      && PortableBut(contract, {RequiredIdentity}) && PortableBut(identity, {PacketIntegrity})
      && PortableBut(body, {ReturnContract})
  {
    var named := Set(identity, PacketIntegrity, Str(""));
    var sealed := WithIdentity(contract, identity, "");
    PortableSet(identity, PacketIntegrity, Str(""), {});
    PortableSet(contract, RequiredIdentity, named, {});
    PortableSet(body, ReturnContract, sealed, {});
    assert {} + {PacketIntegrity} == {PacketIntegrity};
    assert {} + {RequiredIdentity} == {RequiredIdentity};
    assert {} + {ReturnContract} == {ReturnContract};
    ThreePortable(packet, sealed, Str(""), Set(body, ReturnContract, sealed));
  }

  lemma KeptPortable(packet: Value, key: Key)
    requires packet.Obj? && PortableBut(packet, {PacketIntegrity, ReturnContract, WorkerContext})
    requires key !in {PacketIntegrity, ReturnContract, WorkerContext}
    ensures Portable(Get(packet, key))
  {
  }

  lemma SealedPortable(packet: Value)
    requires packet.Obj?
    ensures Portable(Sealed(packet, "")) <==> Encodable(packet)
  {
    var contract := Object(Get(packet, ReturnContract));
    CarryingPortable(packet, ContractOf(packet), IdentityOf(packet), ContextBody(packet));
    PortableSet(contract, RequiredFields, Arr(FieldsOf(Get(packet, ReturnContract))), {RequiredIdentity});
    assert {RequiredIdentity} + {RequiredFields} == {RequiredIdentity, RequiredFields};
    FieldsStay(List(Get(contract, RequiredFields)).items, SEALED);
    if PortableBut(packet, {PacketIntegrity, ReturnContract, WorkerContext}) {
      PartsKept(packet);
    }
  }

  lemma PartsKept(packet: Value)
    requires packet.Obj? && PortableBut(packet, {PacketIntegrity, ReturnContract, WorkerContext})
    ensures PortableBut(IdentityOf(packet), {PacketIntegrity}) && PortableBut(ContextBody(packet), {ReturnContract})
  {
    KeptPortable(packet, AssignmentId);
    KeptPortable(packet, AssignmentRevision);
    KeptPortable(packet, RunId);
    KeptPortable(packet, Target);
    KeptPortable(packet, AssignmentIdentity);
    BodyPortable(packet);
  }

  // ----- sealing -----

  lemma ContextOfDraft(packet: Value, draft: Value, contract: Value)
    requires contract.Obj? && Get(draft, ReturnContract) == contract
    requires forall key :: key !in {PacketIntegrity, ReturnContract, WorkerContext} ==>
      Get(packet, key) == Get(draft, key)
    ensures ContextOf(draft) == Set(ContextBody(packet), ReturnContract, contract)
  {
    ContextIgnoresSeals(packet, draft);
  }

  /** The integrity of a packet with a known hash subject. */
  lemma IntegrityFrom(packet: Value, subject: Value, h: Hashes)
    requires packet.Obj? && Blank(packet) == subject && Portable(subject) && h.Named()
    requires Get(packet, PacketIntegrity) in {Str(""), Str(h.compact(subject))}
    ensures IntegrityOf(packet, h) == Ok(h.compact(subject))
  {
  }

  lemma CarryingShows(packet: Value, contract: Value, identity: Value, body: Value, seal: string)
    requires packet.Obj? && contract.Obj? && identity.Obj? && body.Obj?
    ensures var r := Carrying(packet, contract, identity, body, seal);
      && Get(r, PacketIntegrity) == Str(seal) && Get(r, ReturnContract) == WithIdentity(contract, identity, seal)
      && Get(r, WorkerContext) == Set(body, ReturnContract, Get(r, ReturnContract))
  {
  }

  lemma IdentityShows(contract: Value, identity: Value, seal: string)
    requires contract.Obj? && identity.Obj?
    ensures Get(Get(WithIdentity(contract, identity, seal), RequiredIdentity), PacketIntegrity) == Str(seal)
  {
  }

  lemma SealedShows(packet: Value, seal: string)
    requires packet.Obj?
    ensures var sealed := Sealed(packet, seal);
      && Get(sealed, PacketIntegrity) == Str(seal)
      && Get(Get(Get(sealed, ReturnContract), RequiredIdentity), PacketIntegrity) == Str(seal)
      && Get(sealed, WorkerContext) == ContextOf(sealed)
      && Get(Get(sealed, WorkerContext), ReturnContract) == Get(sealed, ReturnContract)
  {
    var contract := WithIdentity(ContractOf(packet), IdentityOf(packet), seal);
    CarryingShows(packet, ContractOf(packet), IdentityOf(packet), ContextBody(packet), seal);
    CarryingKeeps(packet, ContractOf(packet), IdentityOf(packet), ContextBody(packet), seal);
    IdentityShows(ContractOf(packet), IdentityOf(packet), seal);
    ContextOfDraft(packet, Sealed(packet, seal), contract);
  }

  /** The hash of the empty-sealed packet is its integrity, and still is once it is written in. */
  lemma SealedIntegrity(packet: Value, h: Hashes)
    requires packet.Obj? && h.Named() && Encodable(packet)
    ensures IntegrityOf(Sealed(packet, ""), h) == Ok(h.compact(Sealed(packet, "")))
    ensures var hash := h.compact(Sealed(packet, "")); IntegrityOf(Sealed(packet, hash), h) == Ok(hash)
  {
    var draft := Sealed(packet, "");
    var hash := h.compact(draft);
    BlankSealed(packet, "");
    BlankSealed(packet, hash);
    SealedPortable(packet);
    SealedShows(packet, "");
    SealedShows(packet, hash);
    IntegrityFrom(draft, draft, h);
    IntegrityFrom(Sealed(packet, hash), draft, h);
  }

  lemma UnsealedIntegrity(packet: Value, h: Hashes)
    requires packet.Obj? && h.Named() && !Encodable(packet)
    ensures IntegrityOf(Sealed(packet, ""), h) == Err(Encoding)
  {
    BlankSealed(packet, "");
    SealedPortable(packet);
    SealedShows(packet, "");
  }

  /** First fill in the contract, the empty seal and the context. */
  method Draft(packet: Value) returns (sealed: Value)
    requires packet.Obj?
    ensures sealed == Sealed(packet, "")
  {
    sealed := packet;
    var contract := Object(Get(sealed, ReturnContract));
    var given := List(Get(contract, RequiredFields)).items;
    var fields := given;
    for k := 0 to |SEALED|
      invariant fields == WithFields(given, SEALED[..k])
    {
      assert SEALED[..k + 1][..k] == SEALED[..k];
      if Str(SEALED[k]) !in fields {
        fields := fields + [Str(SEALED[k])];
      }
    }
    assert SEALED[..|SEALED|] == SEALED;
    contract := Set(contract, RequiredFields, Arr(fields));
    assert contract == ContractOf(packet);
    contract := Set(contract, RequiredIdentity, Set(IdentityOf(sealed), PacketIntegrity, Str("")));
    sealed := Set(sealed, ReturnContract, contract);
    sealed := Set(sealed, PacketIntegrity, Str(""));
    ContextOfDraft(packet, sealed, contract);
    sealed := Set(sealed, WorkerContext, ContextOf(sealed));
  }

  lemma Reidentified(contract: Value, identity: Value, seal: string, seal': string)
    requires contract.Obj? && identity.Obj?
    ensures var old' := WithIdentity(contract, identity, seal);
      && Get(old', RequiredIdentity).Obj?
      && WithIdentity(old', Get(old', RequiredIdentity), seal') == WithIdentity(contract, identity, seal')
  {
    var named := Set(identity, PacketIntegrity, Str(seal));
    Overwrite(identity, PacketIntegrity, Str(seal), Str(seal'));
    Overwrite(contract, RequiredIdentity, named, Set(named, PacketIntegrity, Str(seal')));
  }

  /** Then write the hash over the three places. */
  method Stamp(packet: Value, draft: Value, hash: string) returns (sealed: Value)
    requires packet.Obj? && draft == Sealed(packet, "")
    ensures sealed == Sealed(packet, hash)
  {
    CarryingKeeps(packet, ContractOf(packet), IdentityOf(packet), ContextBody(packet), "");
    Reidentified(ContractOf(packet), IdentityOf(packet), "", hash);
    StampedIsSealed(packet, draft, hash);
    sealed := Set(draft, PacketIntegrity, Str(hash));
    var contract := Get(sealed, ReturnContract);
    contract := WithIdentity(contract, Get(contract, RequiredIdentity), hash);
    sealed := Set(sealed, ReturnContract, contract);
    sealed := Set(sealed, WorkerContext, ContextOf(sealed));
  }

  lemma Rewritten(packet: Value, draft: Value, seal: Value, contract: Value)
    requires draft.Obj?
    requires forall key :: key !in {PacketIntegrity, ReturnContract, WorkerContext} ==>
      Get(draft, key) == Get(packet, key)
    ensures var stamped := Set(Set(draft, PacketIntegrity, seal), ReturnContract, contract);
      && Get(stamped, ReturnContract) == contract
      && forall key :: key !in {PacketIntegrity, ReturnContract, WorkerContext} ==>
          Get(stamped, key) == Get(packet, key)
  {
  }

  lemma StampedIsSealed(packet: Value, draft: Value, hash: string)
    requires packet.Obj? && draft == Sealed(packet, "")
    ensures var contract := WithIdentity(ContractOf(packet), IdentityOf(packet), hash);
      var stamped := Set(Set(draft, PacketIntegrity, Str(hash)), ReturnContract, contract);
      Set(stamped, WorkerContext, ContextOf(stamped)) == Sealed(packet, hash)
  {
    var contract := WithIdentity(ContractOf(packet), IdentityOf(packet), hash);
    var stamped := Set(Set(draft, PacketIntegrity, Str(hash)), ReturnContract, contract);
    CarryingKeeps(packet, ContractOf(packet), IdentityOf(packet), ContextBody(packet), "");
    Rewritten(packet, draft, Str(hash), contract);
    ContextOfDraft(packet, stamped, contract);
    Restamped(packet, ContractOf(packet), IdentityOf(packet), ContextBody(packet), hash);
  }

  lemma Restamped(packet: Value, contract: Value, identity: Value, body: Value, hash: string)
    requires packet.Obj? && contract.Obj? && identity.Obj? && body.Obj?
    ensures var sealed := WithIdentity(contract, identity, hash);
      Set(Set(Set(Carrying(packet, contract, identity, body, ""), PacketIntegrity, Str(hash)), ReturnContract, sealed),
          WorkerContext, Set(body, ReturnContract, sealed))
      == Carrying(packet, contract, identity, body, hash)
  {
    var old', new' := WithIdentity(contract, identity, ""), WithIdentity(contract, identity, hash);
    var context, context' := Set(body, ReturnContract, old'), Set(body, ReturnContract, new');
    assert packet.fields[ReturnContract := old'][PacketIntegrity := Str("")][WorkerContext := context]
             [PacketIntegrity := Str(hash)][ReturnContract := new'][WorkerContext := context']
        == packet.fields[ReturnContract := new'][PacketIntegrity := Str(hash)][WorkerContext := context'];
  }

  /** Sealing, with the source's own last check. It fails exactly for a packet that is no
      object or keeps a number without a settled encoding: the check never does. */
  method Seal(packet: Value, h: Hashes) returns (r: Result<Value, Error>)
    requires h.Named()
    ensures r == SealOf(packet, h) && r != Err(Unstable)
  {
    if !packet.Obj? {
      return Err(NotAnObject);
    }
    var sealed := Draft(packet);
    if Encodable(packet) {
      SealedIntegrity(packet, h);
    } else {
      UnsealedIntegrity(packet, h);
    }
    var first := Integrity(sealed, h);
    if first.Err? {
      return Err(first.error);
    }
    sealed := Stamp(packet, sealed, first.value);
    var second := Integrity(sealed, h);
    if second != first {
      return Err(Unstable);
    }
    r := Ok(sealed);
  }

  // ----- what a seal is worth -----

  /** A sealed packet carries its own integrity wherever it is read, and the context carried
      inside is the one computed from it. */
  lemma SealIsItsIntegrity(packet: Value, h: Hashes)
    requires h.Named() && SealOf(packet, h).Ok?
    ensures var sealed := SealOf(packet, h).value;
      && IntegrityOf(sealed, h).Ok?
      && var seal := Str(IntegrityOf(sealed, h).value);
         && Get(sealed, PacketIntegrity) == seal
         && Get(Get(Get(sealed, ReturnContract), RequiredIdentity), PacketIntegrity) == seal
         && Get(sealed, WorkerContext) == ContextOf(sealed)
         && Get(Get(Get(Get(sealed, WorkerContext), ReturnContract), RequiredIdentity), PacketIntegrity) == seal
  {
    SealedIntegrity(packet, h);
    var hash := h.compact(Sealed(packet, ""));
    SealedShows(packet, hash);
  }

  /** Sealing is idempotent. */
  lemma SealSettles(packet: Value, h: Hashes)
    requires h.Named() && SealOf(packet, h).Ok?
    ensures SealOf(SealOf(packet, h).value, h) == SealOf(packet, h)
  {
    var hash := h.compact(Sealed(packet, ""));
    Resealed(packet, hash, "");
    SealedPortable(packet);
    SealedPortable(Sealed(packet, hash));
    Resealed(packet, hash, hash);
  }

  /** A packet that carries the hash of some subject has that integrity exactly when the
      subject is its own. */
  lemma HashPinsSubject(packet: Value, subject: Value, h: Hashes)
    requires packet.Obj? && h.Named() && h.CollisionFree() && Portable(subject)
    requires Get(packet, PacketIntegrity) == Str(h.compact(subject))
    ensures IntegrityOf(packet, h) == Ok(h.compact(subject)) <==> Blank(packet) == subject
  {
    if Blank(packet) == subject {
      IntegrityFrom(packet, subject, h);
    }
  }

  predicate Intact(packet: Value, h: Hashes) {
    var integrity := IntegrityOf(packet, h);
    integrity.Ok? && Get(packet, PacketIntegrity) == Str(integrity.value)
  }

  /** A packet that carries another's seal is intact exactly when it differs from that packet
      in nothing but the places where a seal is kept. */
  lemma AlteredPacketFails(packet: Value, altered: Value, h: Hashes)
    requires h.Named() && h.CollisionFree() && SealOf(packet, h).Ok? && altered.Obj?
    requires Get(altered, PacketIntegrity) == Get(SealOf(packet, h).value, PacketIntegrity)
    ensures Intact(altered, h) <==> Blank(altered) == Blank(SealOf(packet, h).value)
  {
    var draft := Sealed(packet, "");
    SealedPortable(packet);
    SealedShows(packet, h.compact(draft));
    BlankSealed(packet, h.compact(draft));
    HashPinsSubject(altered, draft, h);
  }

  /** A packet that carries the older hash of some subject is intact exactly when that is its own
      subject, encodable or not: the older seal is still recognised, and altered bytes lose it. */
  lemma LegacySealTells(packet: Value, subject: Value, h: Hashes)
    requires packet.Obj? && h.CollisionFree() && Get(packet, PacketIntegrity) == Str(h.legacy(subject))
    ensures Intact(packet, h) <==> Blank(packet) == subject
  {
  }

  // ----- what the worker is told -----

  /** Trimming removes white space at both ends and nothing else. */
  lemma {:induction false} TrimMeans(s: string) returns (from: nat, to: nat)
    ensures from <= to <= |s| && Trim(s) == s[from..to]
    ensures forall k :: (0 <= k < from || to <= k < |s|) ==> White(s[k])
    ensures from < to ==> !White(s[from]) && !White(s[to - 1])
    decreases |s|
  {
    from, to := 0, |s|;
    if s != [] && White(s[0]) {
      var i, j := TrimMeans(s[1..]);
      from, to := i + 1, j + 1;
      assert forall k :: 1 <= k < |s| ==> s[k] == s[1..][k - 1];
      assert s[1..][i..j] == s[from..to];
    } else if s != [] && White(s[|s| - 1]) {
      from, to := TrimMeans(s[..|s| - 1]);
      assert forall k :: 0 <= k < |s| - 1 ==> s[k] == s[..|s| - 1][k];
      assert s[..|s| - 1][from..to] == s[from..to];
    }
  }

  /** The section `section` of a worker context has `name` as this text of `v`. */
  ghost predicate Tells(context: Value, section: Key, name: Key, v: Value) {
    var told := Get(Get(context, section), name);
    told.Str? && (v.Str? ==> told.text == Trim(v.text)) && (!v.Str? ==> told.text == "")
  }

  /** It has `name` as exactly this list, empty when `v` is none. */
  ghost predicate Grants(told: Value, v: Value) {
    told.Arr? && (v.Arr? ==> told.items == v.items) && (!v.Arr? ==> told.items == [])
  }

  lemma SectionsShow(packet: Value)
    ensures var i, context := Get(packet, AssignmentIdentity), ContextOf(packet);
      && Get(context, Assignment) == AssignmentPart(packet, i) && Get(context, Intent) == IntentPart(i)
      && Get(context, Scope) == ScopePart(i) && Get(context, Effects) == EffectsPart(i)
      && Get(context, Inputs) == InputsPart(i) && Get(context, Proof) == ProofPart(i)
      && Get(context, Authority) == AuthorityPart(i) && Get(context, StopConditions) == List(Get(i, StopConditions))
      && Get(context, ReturnContract) == Object(Get(packet, ReturnContract))
  {
    var i := Get(packet, AssignmentIdentity);
    PartsShow(AssignmentPart(packet, i), IntentPart(i), ScopePart(i), EffectsPart(i), InputsPart(i), ProofPart(i),
              List(Get(i, StopConditions)), AuthorityPart(i), Object(Get(packet, ReturnContract)));
  }

  lemma PartsShow(assignment: Value, intent: Value, scope: Value, effects: Value, inputs: Value, proof: Value,
                  stops: Value, authority: Value, contract: Value)
    ensures var context := Set(Parts(assignment, intent, scope, effects, inputs, proof, stops, authority),
                               ReturnContract, contract);
      && Get(context, Assignment) == assignment && Get(context, Intent) == intent && Get(context, Scope) == scope
      && Get(context, Effects) == effects && Get(context, Inputs) == inputs && Get(context, Proof) == proof
      && Get(context, StopConditions) == stops && Get(context, Authority) == authority
      && Get(context, ReturnContract) == contract
  {
  }

  /** The context tells the worker the texts of the packet and of its assignment identity, and the
      identity's own revision and target where the packet's are blank. */
  lemma ContextTells(packet: Value)
    ensures var i, context := Get(packet, AssignmentIdentity), ContextOf(packet);
      && Tells(context, Assignment, Id, Get(packet, AssignmentId))
      && Tells(context, Assignment, RunId, Get(packet, RunId))
      && Tells(context, Assignment, Revision,
               if Text(Get(packet, AssignmentRevision)) == "" then Get(i, Revision)
               else Get(packet, AssignmentRevision))
      && Tells(context, Assignment, Target,
               if Text(Get(packet, Target)) == "" then Get(i, Target) else Get(packet, Target))
      && Tells(context, Intent, Outcome, Get(i, HumanIntent)) && Tells(context, Intent, TaskClass, Get(i, TaskClass))
      && Tells(context, Intent, Role, Get(i, Role)) && Tells(context, Scope, Class, Get(i, ScopeClass))
      && Tells(context, Proof, ObligationId, Get(i, ProofObligationId))
      && Tells(context, Proof, ObligationRevision, Get(i, ProofObligationRevision))
  {
    var i, context := Get(packet, AssignmentIdentity), ContextOf(packet);
    SectionsShow(packet);
    AssignmentTells(packet, i, context);
    IntentTells(i, context);
    ProofTells(i, context);
  }

  lemma AssignmentTells(packet: Value, i: Value, context: Value)
    requires Get(context, Assignment) == AssignmentPart(packet, i)
    ensures Tells(context, Assignment, Id, Get(packet, AssignmentId))
      && Tells(context, Assignment, RunId, Get(packet, RunId))
    ensures Tells(context, Assignment, Revision,
      if Text(Get(packet, AssignmentRevision)) == "" then Get(i, Revision) else Get(packet, AssignmentRevision))
    ensures Tells(context, Assignment, Target,
      if Text(Get(packet, Target)) == "" then Get(i, Target) else Get(packet, Target))
  {
  }

  lemma IntentTells(i: Value, context: Value)
    requires Get(context, Intent) == IntentPart(i) && Get(context, Scope) == ScopePart(i)
    ensures Tells(context, Intent, Outcome, Get(i, HumanIntent)) && Tells(context, Intent, TaskClass, Get(i, TaskClass))
    ensures Tells(context, Intent, Role, Get(i, Role)) && Tells(context, Scope, Class, Get(i, ScopeClass))
  {
  }

  lemma ProofTells(i: Value, context: Value)
    requires Get(context, Proof) == ProofPart(i)
    ensures Tells(context, Proof, ObligationId, Get(i, ProofObligationId))
    ensures Tells(context, Proof, ObligationRevision, Get(i, ProofObligationRevision))
    ensures Get(Get(context, Proof), WorkerAuthority) == Bool(false)
  {
  }

  /** It grants exactly the identity's paths, effects and inputs, keeps its prohibitions and stop
      conditions, and claims no authority of its own. */
  lemma ContextGrants(packet: Value)
    ensures var i, context := Get(packet, AssignmentIdentity), ContextOf(packet);
      && Grants(Get(Get(context, Scope), AllowedPaths), Get(i, AllowedPaths))
      && Grants(Get(Get(context, Effects), Allowed), Get(i, AllowedEffects))
      && Grants(Get(Get(context, Effects), Prohibited), Get(i, ProhibitedEffects))
      && Grants(Get(context, StopConditions), Get(i, StopConditions))
      && Get(Get(context, Proof), WorkerAuthority) == Bool(false)
      && Get(Get(context, Authority), ScopeWideningAllowed) == Bool(false)
      && Get(Get(context, Authority), ClaimAuthority) == Object(Get(i, ClaimAuthority))
      && Get(context, ReturnContract) == Object(Get(packet, ReturnContract))
  {
    var i, context := Get(packet, AssignmentIdentity), ContextOf(packet);
    SectionsShow(packet);
    ScopeGrants(i, context);
    ProofTells(i, context);
    AuthorityClaims(i, context);
  }

  lemma ScopeGrants(i: Value, context: Value)
    requires Get(context, Scope) == ScopePart(i) && Get(context, Effects) == EffectsPart(i)
    ensures Grants(Get(Get(context, Scope), AllowedPaths), Get(i, AllowedPaths))
    ensures Grants(Get(Get(context, Effects), Allowed), Get(i, AllowedEffects))
    ensures Grants(Get(Get(context, Effects), Prohibited), Get(i, ProhibitedEffects))
  {
  }

  lemma AuthorityClaims(i: Value, context: Value)
    requires Get(context, Authority) == AuthorityPart(i)
    ensures Get(Get(context, Authority), ScopeWideningAllowed) == Bool(false)
    ensures Get(Get(context, Authority), ClaimAuthority) == Object(Get(i, ClaimAuthority))
  {
  }

  /** Its inputs are the identity's, with each optional one exactly when the identity has it. */
  lemma ContextInputs(packet: Value)
    ensures var i, inputs := Get(packet, AssignmentIdentity), Get(ContextOf(packet), Inputs);
      && Grants(Get(inputs, Required), Get(i, RequiredInputs)) && Grants(Get(inputs, ReadFirst), Get(i, ReadFirst))
      && Get(inputs, Capsule) == Get(i, InputCapsule) && Get(inputs, TaskRequirements) == Get(i, TaskRequirements)
      && Get(inputs, SourceWork) == (if Get(i, SourceWork).Obj? then Get(i, SourceWork) else Null)
  {
    SectionsShow(packet);
    InputsShow(Get(packet, AssignmentIdentity));
  }

  lemma InputsShow(i: Value)
    ensures var inputs := InputsPart(i);
      && Get(inputs, Required) == List(Get(i, RequiredInputs)) && Get(inputs, ReadFirst) == List(Get(i, ReadFirst))
      && Get(inputs, Capsule) == Get(i, InputCapsule) && Get(inputs, TaskRequirements) == Get(i, TaskRequirements)
      && Get(inputs, SourceWork) == (if Get(i, SourceWork).Obj? then Get(i, SourceWork) else Null)
  {
    var base := InputsBase(i);
    assert Get(base, Capsule).Null? && Get(base, TaskRequirements).Null? && Get(base, SourceWork).Null?;
  }

  // ----- what a seal adds, and what it leaves -----

  /** A sealed packet's contract repeats the packet's own identity, asks for the three sealed fields
      and keeps every other term; the packet keeps every other part. */
  lemma SealedTerms(packet: Value, seal: string)
    requires packet.Obj?
    ensures var sealed := Sealed(packet, seal);
      var terms := Get(sealed, ReturnContract);
      var identity := Get(terms, RequiredIdentity);
      && Get(identity, AssignmentId) == Get(packet, AssignmentId) && Get(identity, RunId) == Get(packet, RunId)
      && Get(identity, AssignmentRevision) == Get(packet, AssignmentRevision)
      && Get(identity, Target) == Get(packet, Target)
      && Get(terms, RequiredFields) == Arr(FieldsOf(Get(packet, ReturnContract)))
      && (forall key :: key !in {RequiredFields, RequiredIdentity} ==>
            Get(terms, key) == Get(Get(packet, ReturnContract), key))
      && forall key :: key !in {PacketIntegrity, ReturnContract, WorkerContext} ==> Get(sealed, key) == Get(packet, key)
  {
    CarryingKeeps(packet, ContractOf(packet), IdentityOf(packet), ContextBody(packet), seal);
    TermsShow(packet, seal);
  }

  lemma TermsShow(packet: Value, seal: string)
    ensures var terms := WithIdentity(ContractOf(packet), IdentityOf(packet), seal);
      var identity := Get(terms, RequiredIdentity);
      && Get(identity, AssignmentId) == Get(packet, AssignmentId) && Get(identity, RunId) == Get(packet, RunId)
      && Get(identity, AssignmentRevision) == Get(packet, AssignmentRevision)
      && Get(identity, Target) == Get(packet, Target)
      && Get(terms, RequiredFields) == Arr(FieldsOf(Get(packet, ReturnContract)))
      && forall key :: key !in {RequiredFields, RequiredIdentity} ==>
           Get(terms, key) == Get(Get(packet, ReturnContract), key)
  {
  }

  /** The required fields are the given ones with whichever of the three is missing appended. */
  lemma FieldsExactly(contract: Value)
    ensures var given := if Get(contract, RequiredFields).Arr? then Get(contract, RequiredFields).items else [];
      && given <= FieldsOf(contract)
      && (forall k :: 0 <= k < |SEALED| ==> Str(SEALED[k]) in FieldsOf(contract))
      && forall v :: v in FieldsOf(contract) ==> v in given || exists k :: 0 <= k < |SEALED| && v == Str(SEALED[k])
    ensures |SEALED| == 3 && SEALED[0] == "assignment_id" && SEALED[1] == "packet_integrity"
      && SEALED[2] == "result_delivery"
  {
    var items := List(Get(contract, RequiredFields)).items;
    FieldsStay(items, SEALED);
    FieldsOnly(items, SEALED);
  }

  lemma {:induction false} FieldsOnly(items: seq<Value>, names: seq<string>)
    ensures forall v :: v in WithFields(items, names) ==>
      v in items || exists k :: 0 <= k < |names| && v == Str(names[k])
  {
    if names != [] {
      FieldsOnly(items, names[..|names| - 1]);
    }
  }

  /** Blanking touches nothing but the three places of a seal: here outside the worker context. */
  lemma BlankKeeps(packet: Value)
    requires packet.Obj?
    ensures forall key :: key !in {PacketIntegrity, ReturnContract, WorkerContext} ==>
      Get(Blank(packet), key) == Get(packet, key)
    ensures Get(Blank(packet), PacketIntegrity) == Str("")
    ensures BlankedTerms(Get(packet, ReturnContract), Get(Blank(packet), ReturnContract))
  {
    var bare := Set(packet, PacketIntegrity, Str(""));
    BlankIdentityKeeps(bare);
    BlankShows(packet, bare, BlankIdentity(bare));
  }

  /** And here inside it. */
  lemma BlankContextKeeps(packet: Value)
    requires packet.Obj?
    ensures BlankedTerms(Get(Get(packet, WorkerContext), ReturnContract),
              Get(Get(Blank(packet), WorkerContext), ReturnContract))
    ensures forall key :: key != ReturnContract ==>
      Get(Get(Blank(packet), WorkerContext), key) == Get(Get(packet, WorkerContext), key)
  {
    var bare := Set(packet, PacketIntegrity, Str(""));
    BlankContext(packet, bare, BlankIdentity(bare));
    BlankIdentityKeeps(Get(packet, WorkerContext));
  }

  lemma BlankContext(packet: Value, bare: Value, outer: Value)
    requires packet.Obj? && bare == Set(packet, PacketIntegrity, Str("")) && outer == BlankIdentity(bare)
    ensures Get(Blank(packet), WorkerContext) == BlankIdentity(Get(packet, WorkerContext))
  {
    BlankShows(packet, bare, outer);
    BlankIdentityKeeps(bare);
    assert Get(outer, WorkerContext) == Get(bare, WorkerContext);
  }

  lemma BlankShows(packet: Value, bare: Value, outer: Value)
    requires packet.Obj? && bare == Set(packet, PacketIntegrity, Str("")) && outer == BlankIdentity(bare)
    ensures forall key :: key != PacketIntegrity ==> Get(bare, key) == Get(packet, key)
    ensures Get(bare, PacketIntegrity) == Str("")
    ensures forall key :: key != WorkerContext ==> Get(Blank(packet), key) == Get(outer, key)
    ensures Get(Blank(packet), WorkerContext) == BlankIdentity(Get(outer, WorkerContext))
  {
  }

  /** The contract `terms'` is `terms`, but for the seal its required identity had. */
  ghost predicate BlankedTerms(terms: Value, terms': Value) {
    && (forall key :: key != RequiredIdentity ==> Get(terms', key) == Get(terms, key))
    && (forall key :: key != PacketIntegrity ==>
          Get(Get(terms', RequiredIdentity), key) == Get(Get(terms, RequiredIdentity), key))
    && (Get(terms, RequiredIdentity).Obj? ==> Get(Get(terms', RequiredIdentity), PacketIntegrity) == Str(""))
    && (!Get(terms, RequiredIdentity).Obj? ==> terms' == terms)
  }

  lemma BlankIdentityKeeps(v: Value)
    ensures BlankedTerms(Get(v, ReturnContract), Get(BlankIdentity(v), ReturnContract))
    ensures forall key :: key != ReturnContract ==> Get(BlankIdentity(v), key) == Get(v, key)
  {
    var terms := Get(v, ReturnContract);
    var identity := Get(terms, RequiredIdentity);
    if identity.Obj? {
      var blank := Set(identity, PacketIntegrity, Str(""));
      SetShows(identity, PacketIntegrity, Str(""));
      SetShows(terms, RequiredIdentity, blank);
      SetShows(v, ReturnContract, Set(terms, RequiredIdentity, blank));
    }
  }

  lemma SetShows(v: Value, key: Key, x: Value)
    requires v.Obj?
    ensures Get(Set(v, key, x), key) == x && forall k :: k != key ==> Get(Set(v, key, x), k) == Get(v, k)
  {
  }
}
