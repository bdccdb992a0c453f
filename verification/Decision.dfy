/** The decision compiler (src/core/src/lib.rs, `compile` and what it calls) on normalised
    contributions: which actions are offered, which claims and terminal authority survive
    the restrictions, and why the offered actions may run in any order. */
module Decision {
  import opened Wrappers
  import opened Ordering

  const TASK := "task"

  datatype Operation = Operation(inputs: Option<set<string>>, effects: set<string>, claims: set<string>)

  datatype Capability = Capability(domains: set<string>, effects: map<string, string>,
                                   operations: map<string, Operation>)

  datatype Contract = Contract(
    owners: map<string, Capability>,
    claimAuthorities: map<string, string>,
    restrictions: map<string, set<string>>)

  /** Every effect an operation advertises has a domain of its owner. */
  ghost predicate WellFormed(contract: Contract) {
    forall owner, id :: owner in contract.owners && id in contract.owners[owner].operations ==>
      var capability := contract.owners[owner];
      forall e :: e in capability.operations[id].effects ==>
        e in capability.effects && capability.effects[e] in capability.domains
  }

  datatype Blocker = Blocker(consequence: string, affects: set<string>)

  datatype Question = Question(owner: string, id: string, consequence: string, affects: set<string>)

  datatype Action = Action(operation: string, consequence: string, effects: set<string>, authority: string,
                           payload: string)

  datatype Outcome = Outcome(
    id: string, claim: string, status: string, evidence: string, residual: seq<string>, required: set<string>)

  datatype Response = Response(identity: string, consequences: set<string>, status: string)

  datatype Contribution = Contribution(
    owner: string, revision: string, relevant: bool,
    blockers: seq<Blocker>, questions: seq<Question>, actions: seq<Action>,
    allowed: set<string>, blocked: set<string>,
    outcome: Option<Outcome>, response: Option<Response>)

  datatype Intended = Intended(owner: string, claim: string, id: string)

  datatype PublicRequest = PublicRequest(owner: string, sourceRevision: string, identity: string)

  datatype OwnedAction = OwnedAction(owner: string, action: Action)

  datatype Error =
    | UnknownOwner
    | UndeclaredAction
    | ForeignAuthority
    | UnauthorizedClaim
    | UnauthorizedRestriction
    | IntendedUnauthorized
    | RequestUnanswered
    | DuplicateOwner

  datatype Input = Input(
    contributions: seq<Contribution>, contract: Option<Contract>,
    intended: Option<Intended>, request: Option<PublicRequest>)

  datatype Composition = Settled | ManyActions(consequences: seq<string>) | ManyDecisions(questions: seq<Question>)

  datatype Terminal = Terminal(owner: string, revision: string, outcome: Outcome)

  datatype Answer = Answer(
    owners: seq<string>, blockers: seq<Blocker>, questions: seq<Question>, actions: seq<OwnedAction>,
    ready: seq<OwnedAction>, primary: Option<OwnedAction>, request: Option<Question>, composition: Composition,
    allowed: set<string>, blocked: set<string>, terminal: Option<Terminal>, status: string,
    resolution: Option<Response>)

  // ----- admission of one contribution -----

  predicate Restricts(contract: Contract, owner: string, scope: string) {
    scope == "attestation:" + owner
    || (owner in contract.restrictions && scope in contract.restrictions[owner])
  }

  function Affects(c: Contribution): set<string> {
    (set b, s | b in c.blockers && s in b.affects :: s) + (set q, s | q in c.questions && s in q.affects :: s)
  }

  predicate BearsAuthority(c: Contribution) {
    c.blockers != [] || c.questions != [] || c.actions != [] || c.allowed != {} || c.blocked != {}
    || c.outcome.Some? || c.response.Some?
  }

  /** The capability checks of `normalize_contribution`. */
  function Admit(contract: Option<Contract>, c: Contribution): Option<Error> {
    if contract.None? then if BearsAuthority(c) then Some(UnknownOwner) else None
    else
      var k := contract.value;
      if c.owner !in k.owners then if BearsAuthority(c) then Some(UnknownOwner) else None
      else if exists a :: a in c.actions && a.operation !in k.owners[c.owner].operations then Some(UndeclaredAction)
      else if exists a :: a in c.actions && a.authority != c.owner then Some(ForeignAuthority)
      else if exists a :: a in c.actions && !(a.effects <= k.owners[c.owner].operations[a.operation].effects)
      then Some(UndeclaredAction)
      else if exists claim :: claim in c.allowed && !Authorized(k, c.owner, claim) then Some(UnauthorizedClaim)
      else if exists s :: s in Affects(c) && !Restricts(k, c.owner, s) then Some(UnauthorizedRestriction)
      else if exists claim :: claim in c.blocked && !Restricts(k, c.owner, "claim:" + claim)
      then Some(UnauthorizedRestriction)
      else if c.outcome.Some? && !Authorized(k, c.owner, c.outcome.value.claim) then Some(UnauthorizedClaim)
      else if c.outcome.Some?
              && exists claim :: claim in c.outcome.value.required && claim !in k.claimAuthorities
      then Some(UnauthorizedClaim)
      else None
  }

  predicate Authorized(contract: Contract, owner: string, claim: string) {
    claim in contract.claimAuthorities && contract.claimAuthorities[claim] == owner
  }

  function FirstError(contract: Option<Contract>, cs: seq<Contribution>): Option<Error> {
    if cs == [] then None
    else match Admit(contract, cs[0])
      case Some(e) => Some(e)
      case None => FirstError(contract, cs[1..])
  }

  // ----- filtering and gathering -----

  function Filter<T(!new)>(xs: seq<T>, keep: T -> bool): (kept: seq<T>)
    ensures forall x :: x in kept <==> x in xs && keep(x)
  {
    if xs == [] then [] else (if keep(xs[0]) then [xs[0]] else []) + Filter(xs[1..], keep)
  }

  function Gather<T>(cs: seq<Contribution>, parts: Contribution -> seq<T>): seq<T> {
    if cs == [] then [] else parts(cs[0]) + Gather(cs[1..], parts)
  }

  // ----- the public request -----

  predicate Responds(c: Contribution) {
    c.response.Some?
  }

  function Responding(cs: seq<Contribution>): (found: seq<Contribution>)
    ensures forall c :: c in found <==> c in cs && c.response.Some?
  {
    Filter(cs, Responds)
  }

  function Candidates(c: Contribution, status: string): set<string> {
    if status == "action" then set a | a in c.actions :: a.consequence
    else if status == "decision" then set q | q in c.questions :: q.consequence
    else if status == "blocked" then set b | b in c.blockers :: b.consequence
    else {}
  }

  /** `resolve_public_request`: a request has exactly one response, current, from its owner,
      about that owner's own consequences. */
  function Resolve(request: Option<PublicRequest>, cs: seq<Contribution>): Result<Option<Response>, Error> {
    var responses := Responding(cs);
    if request.None? then if responses == [] then Ok(None) else Err(RequestUnanswered)
    else if |responses| != 1 then Err(RequestUnanswered)
    else
      var c := responses[0];
      var response := c.response.value;
      if c.owner != request.value.owner || !c.relevant || c.revision != request.value.sourceRevision
         || response.identity != request.value.identity
         || (response.status == "settled") != (response.consequences == {})
         || !(response.consequences <= Candidates(c, response.status))
      then Err(RequestUnanswered) else Ok(Some(response))
  }

  // ----- relevant owners and what they contribute -----

  predicate IsRelevant(c: Contribution) {
    c.relevant
  }

  function Relevant(cs: seq<Contribution>): seq<Contribution> {
    Filter(cs, IsRelevant)
  }

  function OwnerKey(c: Contribution): Key { [c.owner] }

  function QuestionKey(q: Question): Key { [q.owner, q.id, q.consequence] }

  function ActionKey(a: OwnedAction): Key { [a.owner, a.action.operation, a.action.consequence] }

  function BlockersOf(c: Contribution): seq<Blocker> { c.blockers }

  function QuestionsOf(c: Contribution): seq<Question> { c.questions }

  function ActionsOf(c: Contribution): (owned: seq<OwnedAction>)
    ensures |owned| == |c.actions| && forall k :: 0 <= k < |owned| ==> owned[k] == OwnedAction(c.owner, c.actions[k])
  {
    seq(|c.actions|, k requires 0 <= k < |c.actions| => OwnedAction(c.owner, c.actions[k]))
  }

  function Constrained(cs: seq<Contribution>): set<string> {
    set c, s | c in cs && s in Affects(c) :: s
  }

  function BlockedClaims(cs: seq<Contribution>): set<string> {
    set c, claim | c in cs && claim in c.blocked :: claim
  }

  function AllowedClaims(cs: seq<Contribution>): set<string> {
    set c, claim | c in cs && claim in c.allowed && claim !in BlockedClaims(cs) :: claim
  }

  predicate Available(constrained: set<string>, owned: OwnedAction) {
    && TASK !in constrained
    && owned.action.consequence !in constrained
    && forall e :: e in owned.action.effects ==> "effect:" + e !in constrained
  }

  function AvailableIn(constrained: set<string>): OwnedAction -> bool {
    (owned: OwnedAction) => Available(constrained, owned)
  }

  // ----- independence -----

  datatype Footprint = Footprint(inputs: set<string>, writes: set<string>)

  /** The domains an operation may read and write, at its full admitted ceiling; unknown
      when the operation or its reads are undeclared. */
  function FootprintOf(contract: Contract, owned: OwnedAction): Option<Footprint>
    requires WellFormed(contract)
  {
    if owned.owner !in contract.owners then None
    else
      var capability := contract.owners[owned.owner];
      if owned.action.operation !in capability.operations then None
      else
        var operation := capability.operations[owned.action.operation];
        if operation.inputs.None? then None
        else Some(Footprint(operation.inputs.value, set e | e in operation.effects :: capability.effects[e]))
  }

  predicate Disjoint(a: Footprint, b: Footprint) {
    a.writes !! b.writes && a.writes !! b.inputs && b.writes !! a.inputs
  }

  predicate Independent(contract: Option<Contract>, left: OwnedAction, right: OwnedAction)
    requires contract.Some? ==> WellFormed(contract.value)
  {
    contract.Some?
    && var l, r := FootprintOf(contract.value, left), FootprintOf(contract.value, right);
    l.Some? && r.Some? && Disjoint(l.value, r.value)
  }

  predicate PairwiseIndependent(contract: Option<Contract>, actions: seq<OwnedAction>)
    requires contract.Some? ==> WellFormed(contract.value)
  {
    forall i, j :: 0 <= i < j < |actions| ==> Independent(contract, actions[i], actions[j])
  }

  // ----- terminal authority -----

  function Find(cs: seq<Contribution>, owner: string): Option<Contribution> {
    if cs == [] then None else if cs[0].owner == owner then Some(cs[0]) else Find(cs[1..], owner)
  }

  /** `terminal_authority`: the intended owner's complete, residue-free, current outcome, when
      no restriction touches it and every required claim is allowed. */
  function TerminalAuthority(intended: Option<Intended>, cs: seq<Contribution>): Option<Terminal> {
    if intended.None? then None
    else match Find(cs, intended.value.owner)
      case None => None
      case Some(c) =>
        if c.outcome.None? then None
        else
          var o := c.outcome.value;
          var constrained, allowed, blocked := Constrained(cs), AllowedClaims(cs), BlockedClaims(cs);
          if o.id == intended.value.id && o.claim == intended.value.claim && o.status == "complete"
             && o.evidence == c.revision && o.residual == []
             && (forall claim :: claim in o.required ==>
                   claim in allowed && claim !in blocked && "claim:" + claim !in constrained)
             && o.claim in allowed && o.claim !in blocked
             && TASK !in constrained && "claim:" + intended.value.claim !in constrained
             && "outcome:" + intended.value.id !in constrained
          then Some(Terminal(c.owner, c.revision, o)) else None
  }

  // ----- the answer -----

  predicate HoldsAll(q: Question) {
    TASK in q.affects
  }

  /** The questions the answer to the public request names. */
  function NamedBy(resolution: Option<Response>): Question -> bool {
    (q: Question) =>
      resolution.Some? && resolution.value.status == "decision" && q.consequence in resolution.value.consequences
  }

  function Consequences(actions: seq<OwnedAction>): seq<string> {
    if actions == [] then [] else [actions[0].action.consequence] + Consequences(actions[1..])
  }

  function Owners(cs: seq<Contribution>): seq<string> {
    if cs == [] then [] else [cs[0].owner] + Owners(cs[1..])
  }

  /** Everything below depends on the sorted relevant contributions only. */
  function Assemble(contract: Option<Contract>, intended: Option<Intended>, cs: seq<Contribution>,
                    resolution: Option<Response>): Answer
    requires contract.Some? ==> WellFormed(contract.value)
  {
    var blockers := Gather(cs, BlockersOf);
    var questions := SortBy(Gather(cs, QuestionsOf), QuestionKey);
    var actions := SortBy(Gather(cs, ActionsOf), ActionKey);
    var constrained := Constrained(cs);
    var available := Filter(actions, AvailableIn(constrained));
    var independent := PairwiseIndependent(contract, available);
    var ready := if independent then available else [];
    var primary := if |ready| == 1 then Some(ready[0]) else None;
    var task := Filter(questions, HoldsAll);
    var requested := Filter(questions, NamedBy(resolution));
    var request :=
      if ready == [] && independent && |task| == 1 then Some(task[0])
      else if ready == [] && independent && task == [] && |requested| == 1 then Some(requested[0])
      else None;
    var composition :=
      if !independent then ManyActions(Consequences(available))
      else if primary.None? && |task| > 1 then ManyDecisions(task)
      else Settled;
    var terminal := TerminalAuthority(intended, cs);
    var globally := composition != Settled || exists b :: b in blockers && TASK in b.affects;
    var status :=
      if terminal.Some? then "terminal"
      else if ready != [] then "actionable"
      else if globally then "blocked"
      else if request.Some? then "decision"
      else "direct";
    Answer(Owners(cs), blockers, questions, actions, ready,
           if terminal.Some? then None else primary, request, composition,
           AllowedClaims(cs), BlockedClaims(cs), terminal, status, resolution)
  }

  function IntendedError(input: Input): Option<Error> {
    if input.intended.None? then None
    else if input.contract.None? then Some(IntendedUnauthorized)
    else if Authorized(input.contract.value, input.intended.value.owner, input.intended.value.claim) then None
    else Some(IntendedUnauthorized)
  }

  /** Sorted by owner, no two neighbours share one. */
  predicate OneEach(cs: seq<Contribution>) {
    forall i :: 0 <= i < |cs| - 1 ==> cs[i].owner != cs[i + 1].owner
  }

  function Conclude(contract: Option<Contract>, intended: Option<Intended>, cs: seq<Contribution>,
                    resolution: Option<Response>): Result<Answer, Error>
    requires contract.Some? ==> WellFormed(contract.value)
  {
    if OneEach(cs) then Ok(Assemble(contract, intended, cs, resolution)) else Err(DuplicateOwner)
  }

  /** The checks before the contributions are sorted, and the public request's resolution. */
  function Resolved(input: Input): Result<Option<Response>, Error> {
    match IntendedError(input)
    case Some(e) => Err(e)
    case None =>
      match FirstError(input.contract, input.contributions)
      case Some(e) => Err(e)
      case None => Resolve(input.request, input.contributions)
  }

  /** The relevant contributions in owner order. */
  function Sources(input: Input): seq<Contribution> {
    SortBy(Relevant(input.contributions), OwnerKey)
  }

  function Compile(input: Input): Result<Answer, Error>
    requires input.contract.Some? ==> WellFormed(input.contract.value)
  {
    match Resolved(input)
    case Err(e) => Err(e)
    case Ok(resolution) => Conclude(input.contract, input.intended, Sources(input), resolution)
  }
}
