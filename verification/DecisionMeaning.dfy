/** What a decision says, stated on the contributions themselves (src/core/src/lib.rs,
    `compile`, `resolve_public_request`, `terminal_authority`). */
module DecisionMeaning {
  import opened Wrappers
  import opened Ordering
  import opened Decision
  import opened DecisionLaws

  ghost predicate Current(input: Input, c: Contribution) {
    c in input.contributions && c.relevant
  }

  /** Some current blocker or question affects the consequence. */
  ghost predicate Restricted(input: Input, scope: string) {
    exists c :: Current(input, c) && Touches(c, scope)
  }

  ghost predicate Touches(c: Contribution, scope: string) {
    (exists b :: b in c.blockers && scope in b.affects) || (exists q :: q in c.questions && scope in q.affects)
  }

  /** Some current owner allows the claim and none blocks it. */
  ghost predicate Claimed(input: Input, claim: string) {
    && (exists c :: Current(input, c) && claim in c.allowed)
    && !Barred(input, claim)
  }

  ghost predicate Barred(input: Input, claim: string) {
    exists c :: Current(input, c) && claim in c.blocked
  }

  /** A current action that nothing holds back. */
  ghost predicate Offerable(input: Input, a: OwnedAction) {
    && (exists c :: Current(input, c) && c.owner == a.owner && a.action in c.actions)
    && !Restricted(input, "task") && !Restricted(input, a.action.consequence)
    && forall e :: e in a.action.effects ==> !Restricted(input, "effect:" + e)
  }

  /** The intended owner's outcome is complete for its own current revision, leaves nothing
      over, and neither it nor a claim it requires is restricted. */
  ghost predicate Concludes(input: Input, c: Contribution) {
    && Current(input, c) && input.intended.Some? && c.outcome.Some?
    && var goal, o := input.intended.value, c.outcome.value;
    && c.owner == goal.owner && o.id == goal.id && o.claim == goal.claim
    && o.status == "complete" && o.evidence == c.revision && o.residual == []
    && Claimed(input, o.claim) && !Restricted(input, "task")
    && !Restricted(input, "claim:" + o.claim) && !Restricted(input, "outcome:" + o.id)
    && forall claim :: claim in o.required ==> Claimed(input, claim) && !Restricted(input, "claim:" + claim)
  }

  lemma ConstrainedMeans(input: Input, scope: string)
    ensures scope in Constrained(Sources(input)) <==> Restricted(input, scope)
  {
    forall c ensures c in Sources(input) <==> Current(input, c) {
      SourcesMembers(input, c);
    }
    forall c ensures scope in Affects(c) <==> Touches(c, scope) {
    }
  }

  lemma BlockedMeans(input: Input, claim: string)
    ensures claim in BlockedClaims(Sources(input)) <==> Barred(input, claim)
  {
    forall c ensures c in Sources(input) <==> Current(input, c) {
      SourcesMembers(input, c);
    }
  }

  lemma AllowedMeans(input: Input, claim: string)
    ensures claim in AllowedClaims(Sources(input)) <==> Claimed(input, claim)
  {
    BlockedMeans(input, claim);
    forall c ensures c in Sources(input) <==> Current(input, c) {
      SourcesMembers(input, c);
    }
  }

  /** A claim is allowed exactly when a current owner allows it and none blocks it. */
  lemma ClaimsExactly(input: Input, answer: Answer, claim: string)
    requires input.contract.Some? ==> WellFormed(input.contract.value)
    requires Compile(input) == Ok(answer)
    ensures claim in answer.allowed <==> Claimed(input, claim)
    ensures claim in answer.blocked <==> Barred(input, claim)
  {
    CompiledParts(input, answer);
    AllowedMeans(input, claim);
    BlockedMeans(input, claim);
  }

  lemma AvailableMeans(input: Input, a: OwnedAction)
    ensures a in AvailableActions(input) <==> Offerable(input, a)
  {
    AvailableMembers(input, a);
    forall c ensures c in Sources(input) <==> Current(input, c) {
      SourcesMembers(input, c);
    }
    forall scope ensures scope in Constrained(Sources(input)) <==> Restricted(input, scope) {
      ConstrainedMeans(input, scope);
    }
  }

  lemma ConcludesMeans(input: Input, c: Contribution)
    requires c in Sources(input) && input.intended.Some? && Find(Sources(input), input.intended.value.owner) == Some(c)
    ensures TerminalAuthority(input.intended, Sources(input)).Some? <==> Concludes(input, c)
  {
    SourcesMembers(input, c);
    FindMember(Sources(input), input.intended.value.owner);
    forall scope ensures scope in Constrained(Sources(input)) <==> Restricted(input, scope) {
      ConstrainedMeans(input, scope);
    }
    forall claim ensures claim in AllowedClaims(Sources(input)) <==> Claimed(input, claim) {
      AllowedMeans(input, claim);
    }
    forall claim ensures claim in BlockedClaims(Sources(input)) <==> Barred(input, claim) {
      BlockedMeans(input, claim);
    }
  }

  /** There is terminal authority exactly when some current owner concludes the intended
      outcome, and it is that owner's outcome at its current revision. */
  lemma TerminalExactly(input: Input, answer: Answer)
    requires input.contract.Some? ==> WellFormed(input.contract.value)
    requires Compile(input) == Ok(answer)
    ensures answer.terminal.Some? <==> exists c :: Concludes(input, c)
    ensures forall c :: Concludes(input, c) ==> answer.terminal == Some(Terminal(c.owner, c.revision, c.outcome.value))
    ensures answer.status == "terminal" <==> answer.terminal.Some?
  {
    CompiledParts(input, answer);
    forall c | Concludes(input, c)
      ensures answer.terminal == Some(Terminal(c.owner, c.revision, c.outcome.value))
    {
      SourcesMembers(input, c);
      FindIsUnique(Sources(input), c);
      ConcludesMeans(input, c);
    }
    if answer.terminal.Some? {
      FindMember(Sources(input), input.intended.value.owner);
      ConcludesMeans(input, Find(Sources(input), input.intended.value.owner).value);
    }
  }

  // ----- occurrences -----

  /** The current contributions list `x` more than once. */
  ghost predicate Twice<T>(input: Input, parts: Contribution -> seq<T>, x: T) {
    (exists c :: Current(input, c) && Repeats(parts(c), x))
    || (exists c, d :: Current(input, c) && Current(input, d) && c != d && x in parts(c) && x in parts(d))
  }

  ghost predicate Repeats<T>(xs: seq<T>, x: T) {
    exists i, j :: 0 <= i < j < |xs| && xs[i] == x && xs[j] == x
  }

  lemma {:induction false} RepeatsCount<T>(xs: seq<T>, x: T)
    ensures multiset(xs)[x] >= 2 <==> Repeats(xs, x)
  {
    if xs != [] {
      var rest := xs[1..];
      RepeatsCount(rest, x);
      assert xs == [xs[0]] + rest;
      assert multiset(xs) == multiset{xs[0]} + multiset(rest);
      assert x in multiset(rest) <==> x in rest;
      if xs[0] == x && x in rest {
        var k :| 0 <= k < |rest| && rest[k] == x;
        assert xs[0] == x && xs[k + 1] == x;
      }
      if Repeats(rest, x) {
        var i, j :| 0 <= i < j < |rest| && rest[i] == x && rest[j] == x;
        assert xs[i + 1] == x && xs[j + 1] == x;
      }
      if Repeats(xs, x) {
        var i, j :| 0 <= i < j < |xs| && xs[i] == x && xs[j] == x;
        assert rest[j - 1] == x;
        assert i > 0 ==> rest[i - 1] == x;
      }
    }
  }

  ghost predicate TwiceAmong<T>(cs: seq<Contribution>, parts: Contribution -> seq<T>, x: T) {
    (exists c :: c in cs && Repeats(parts(c), x))
    || (exists c, d :: c in cs && d in cs && c != d && x in parts(c) && x in parts(d))
  }

  lemma {:induction false} GatherTwice<T>(cs: seq<Contribution>, parts: Contribution -> seq<T>, x: T)
    requires forall i, j :: 0 <= i < j < |cs| ==> cs[i] != cs[j]
    ensures multiset(Gather(cs, parts))[x] >= 2 <==> TwiceAmong(cs, parts, x)
  {
    if cs != [] {
      var rest := cs[1..];
      assert forall i :: 0 <= i < |rest| ==> rest[i] == cs[i + 1];
      GatherTwice(rest, parts, x);
      GatherMembers(rest, parts, x);
      RepeatsCount(parts(cs[0]), x);
      TwiceSplits(cs, parts, x);
      assert multiset(Gather(cs, parts)) == multiset(parts(cs[0])) + multiset(Gather(rest, parts));
      assert x in Gather(rest, parts) <==> multiset(Gather(rest, parts))[x] >= 1;
      assert x in parts(cs[0]) <==> multiset(parts(cs[0]))[x] >= 1;
    }
  }

  lemma TwiceSplits<T>(cs: seq<Contribution>, parts: Contribution -> seq<T>, x: T)
    requires cs != [] && forall i, j :: 0 <= i < j < |cs| ==> cs[i] != cs[j]
    ensures TwiceAmong(cs, parts, x) <==>
      Repeats(parts(cs[0]), x) || TwiceAmong(cs[1..], parts, x)
      || (x in parts(cs[0]) && exists d :: d in cs[1..] && x in parts(d))
  {
    var rest := cs[1..];
    assert forall c :: c in cs <==> c == cs[0] || c in rest;
    assert cs[0] !in rest;
  }

  /** In a compilation that succeeded a gathered part is counted once for each occurrence. */
  lemma TwiceMeans<T>(input: Input, answer: Answer, parts: Contribution -> seq<T>, x: T)
    requires input.contract.Some? ==> WellFormed(input.contract.value)
    requires Compile(input) == Ok(answer)
    ensures multiset(Gather(Sources(input), parts))[x] >= 2 <==> Twice(input, parts, x)
  {
    CompiledParts(input, answer);
    OneEachIsDistinct(Sources(input));
    GatherTwice(Sources(input), parts, x);
    forall c ensures c in Sources(input) <==> Current(input, c) {
      SourcesMembers(input, c);
    }
  }

  // ----- which actions are offered -----

  /** The operation is declared and what it reads is known. */
  ghost predicate Known(contract: Contract, a: OwnedAction) {
    && a.owner in contract.owners && a.action.operation in contract.owners[a.owner].operations
    && contract.owners[a.owner].operations[a.action.operation].inputs.Some?
  }

  ghost predicate MayRead(contract: Contract, a: OwnedAction, domain: string)
    requires Known(contract, a)
  {
    domain in contract.owners[a.owner].operations[a.action.operation].inputs.value
  }

  /** The domain belongs to an effect the operation advertises, whether or not the action names it. */
  ghost predicate MayWrite(contract: Contract, a: OwnedAction, domain: string)
    requires WellFormed(contract) && Known(contract, a)
  {
    var capability := contract.owners[a.owner];
    exists e :: e in capability.operations[a.action.operation].effects && capability.effects[e] == domain
  }

  /** Two actions may interfere when too little is known of one of them, or when one may write a
      domain that the other may read or write.  Reading the same domain is no interference. */
  ghost predicate Interfere(contract: Option<Contract>, a: OwnedAction, b: OwnedAction)
    requires contract.Some? ==> WellFormed(contract.value)
  {
    || contract.None? || !Known(contract.value, a) || !Known(contract.value, b)
    || exists d ::
         || (MayWrite(contract.value, a, d) && (MayRead(contract.value, b, d) || MayWrite(contract.value, b, d)))
         || (MayWrite(contract.value, b, d) && MayRead(contract.value, a, d))
  }

  lemma WritesMean(contract: Contract, a: OwnedAction, d: string)
    requires WellFormed(contract) && Known(contract, a)
    ensures FootprintOf(contract, a).Some?
    ensures d in FootprintOf(contract, a).value.writes <==> MayWrite(contract, a, d)
    ensures d in FootprintOf(contract, a).value.inputs <==> MayRead(contract, a, d)
  {
  }

  /** Actions are taken as independent exactly when they may not interfere. */
  lemma IndependentExactly(contract: Option<Contract>, a: OwnedAction, b: OwnedAction)
    requires contract.Some? ==> WellFormed(contract.value)
    ensures Independent(contract, a, b) <==> !Interfere(contract, a, b)
  {
    if contract.Some? && Known(contract.value, a) && Known(contract.value, b) {
      forall d
        ensures d in FootprintOf(contract.value, a).value.writes <==> MayWrite(contract.value, a, d)
        ensures d in FootprintOf(contract.value, a).value.inputs <==> MayRead(contract.value, a, d)
        ensures d in FootprintOf(contract.value, b).value.writes <==> MayWrite(contract.value, b, d)
        ensures d in FootprintOf(contract.value, b).value.inputs <==> MayRead(contract.value, b, d)
      {
        WritesMean(contract.value, a, d);
        WritesMean(contract.value, b, d);
      }
    }
  }

  /** Two different occurrences of offerable actions that may interfere. */
  ghost predicate Conflicting(input: Input, a: OwnedAction, b: OwnedAction)
    requires input.contract.Some? ==> WellFormed(input.contract.value)
  {
    && Offerable(input, a) && Offerable(input, b) && Interfere(input.contract, a, b)
    && (a != b || Twice(input, ActionsOf, a))
  }

  ghost predicate Conflict(input: Input)
    requires input.contract.Some? ==> WellFormed(input.contract.value)
  {
    exists a, b :: Conflicting(input, a, b)
  }

  lemma AvailableTwice(input: Input, answer: Answer, a: OwnedAction)
    requires input.contract.Some? ==> WellFormed(input.contract.value)
    requires Compile(input) == Ok(answer) && Offerable(input, a)
    ensures Repeats(AvailableActions(input), a) <==> Twice(input, ActionsOf, a)
  {
    var gathered := Gather(Sources(input), ActionsOf);
    TwiceMeans(input, answer, ActionsOf, a);
    RepeatsCount(AvailableActions(input), a);
    SortBySorts(gathered, ActionKey);
    FilterCount(SortBy(gathered, ActionKey), AvailableIn(Constrained(Sources(input))), a);
    AvailableMeans(input, a);
    assert a in AvailableActions(input);
  }

  lemma ConflictMeans(input: Input, answer: Answer)
    requires input.contract.Some? ==> WellFormed(input.contract.value)
    requires Compile(input) == Ok(answer)
    ensures PairwiseIndependent(input.contract, AvailableActions(input)) <==> !Conflict(input)
  {
    var available := AvailableActions(input);
    forall a ensures a in available <==> Offerable(input, a) {
      AvailableMeans(input, a);
    }
    if !PairwiseIndependent(input.contract, available) {
      var i, j :| 0 <= i < j < |available| && !Independent(input.contract, available[i], available[j]);
      AvailableTwice(input, answer, available[i]);
      IndependentExactly(input.contract, available[i], available[j]);
      assert Conflicting(input, available[i], available[j]);
    }
    if Conflict(input) {
      var a, b :| Conflicting(input, a, b);
      ConflictIsSeen(input, answer, a, b);
    }
  }

  lemma DependentIsSeen(contract: Option<Contract>, actions: seq<OwnedAction>, a: OwnedAction, b: OwnedAction)
    requires contract.Some? ==> WellFormed(contract.value)
    requires a in actions && b in actions && !Independent(contract, a, b) && (a != b || Repeats(actions, a))
    ensures !PairwiseIndependent(contract, actions)
  {
    if a == b {
      var i, j :| 0 <= i < j < |actions| && actions[i] == a && actions[j] == a;
      assert !Independent(contract, actions[i], actions[j]);
    } else {
      var i :| 0 <= i < |actions| && actions[i] == a;
      var j :| 0 <= j < |actions| && actions[j] == b;
      assert !Independent(contract, actions[i], actions[j]) && !Independent(contract, actions[j], actions[i]);
    }
  }

  lemma ConflictIsSeen(input: Input, answer: Answer, a: OwnedAction, b: OwnedAction)
    requires input.contract.Some? ==> WellFormed(input.contract.value)
    requires Compile(input) == Ok(answer) && Conflicting(input, a, b)
    ensures !PairwiseIndependent(input.contract, AvailableActions(input))
  {
    AvailableMeans(input, a);
    AvailableMeans(input, b);
    AvailableTwice(input, answer, a);
    IndependentExactly(input.contract, a, b);
    DependentIsSeen(input.contract, AvailableActions(input), a, b);
  }

  /** An action is offered exactly when nothing restricts it and no two offerable occurrences
      conflict, itself included when it is listed twice. */
  lemma ReadyExactly(input: Input, answer: Answer, a: OwnedAction)
    requires input.contract.Some? ==> WellFormed(input.contract.value)
    requires Compile(input) == Ok(answer)
    ensures a in answer.ready <==> Offerable(input, a) && !Conflict(input)
    ensures answer.composition.ManyActions? <==> Conflict(input)
  {
    ConflictMeans(input, answer);
    AvailableMeans(input, a);
  }

  // ----- which decision is requested -----

  ghost predicate Asks(input: Input, q: Question) {
    exists c :: Current(input, c) && q in c.questions
  }

  ghost predicate AsksAll(input: Input, q: Question) {
    Asks(input, q) && "task" in q.affects
  }

  /** The question is the answer, or one of the answers, to the public request. */
  ghost predicate AnswersRequest(input: Input, q: Question) {
    && Asks(input, q) && input.request.Some?
    && exists i, r ::
        Answers(input.contributions, i, input.request.value, r) && r.status == "decision"
            && q.consequence in r.consequences
  }

  /** Of the questions of one kind `q` is the only one, and it is asked once. */
  ghost predicate Sole(input: Input, kind: Question -> bool, q: Question) {
    && Asks(input, q) && kind(q) && !Twice(input, QuestionsOf, q)
    && forall p :: Asks(input, p) && kind(p) ==> p == q
  }

  /** Two questions that hold up all work, or one asked twice. */
  ghost predicate ManyTaskQuestions(input: Input) {
    exists p, q :: AsksAll(input, p) && AsksAll(input, q) && (p != q || Twice(input, QuestionsOf, p))
  }

  /** The one question that holds up all work, or else the one answer to the public request. */
  ghost predicate Requested(input: Input, q: Question) {
    || (AsksAll(input, q) && !ManyTaskQuestions(input))
    || (&& (forall p :: !AsksAll(input, p)) && AnswersRequest(input, q) && !Twice(input, QuestionsOf, q)
        && forall p :: AnswersRequest(input, p) ==> p == q)
  }

  /** A current blocker holds up all work. */
  ghost predicate TaskBlocked(input: Input) {
    exists c, b :: Current(input, c) && b in c.blockers && "task" in b.affects
  }

  ghost function Asked(input: Input): seq<Question> {
    SortBy(Gather(Sources(input), QuestionsOf), QuestionKey)
  }

  lemma AskedMeans(input: Input, answer: Answer, q: Question)
    requires input.contract.Some? ==> WellFormed(input.contract.value)
    requires Compile(input) == Ok(answer)
    ensures q in Asked(input) <==> Asks(input, q)
    ensures multiset(Asked(input))[q] >= 2 <==> Twice(input, QuestionsOf, q)
  {
    var questions := Gather(Sources(input), QuestionsOf);
    SortBySorts(questions, QuestionKey);
    assert q in Asked(input) <==> q in multiset(Asked(input));
    assert q in questions <==> q in multiset(questions);
    GatherMembers(Sources(input), QuestionsOf, q);
    TwiceMeans(input, answer, QuestionsOf, q);
    forall c ensures c in Sources(input) <==> Current(input, c) {
      SourcesMembers(input, c);
    }
  }

  lemma Singleton<T(!new)>(xs: seq<T>, x: T)
    ensures xs == [x] <==> (forall y :: y in xs <==> y == x) && !Repeats(xs, x)
  {
    if |xs| >= 2 && forall y :: y in xs <==> y == x {
      assert xs[0] in xs && xs[1] in xs;
      assert Repeats(xs, x);
    } else if forall y :: y in xs <==> y == x {
      assert x in xs;
    }
  }

  lemma Several<T(!new)>(xs: seq<T>)
    ensures |xs| > 1 <==> exists x, y :: x in xs && y in xs && (x != y || Repeats(xs, x))
  {
    if |xs| > 1 {
      assert xs[0] in xs && xs[1] in xs;
      assert xs[0] == xs[1] ==> Repeats(xs, xs[0]);
    }
  }

  /** Asked questions of one kind: each occurrence counts. */
  lemma KindMeans(input: Input, answer: Answer, kind: Question -> bool, q: Question)
    requires input.contract.Some? ==> WellFormed(input.contract.value)
    requires Compile(input) == Ok(answer)
    ensures q in Filter(Asked(input), kind) <==> Asks(input, q) && kind(q)
    ensures kind(q) ==> (Repeats(Filter(Asked(input), kind), q) <==> Twice(input, QuestionsOf, q))
  {
    AskedMeans(input, answer, q);
    FilterCount(Asked(input), kind, q);
    RepeatsCount(Filter(Asked(input), kind), q);
  }

  lemma SoleMeans(input: Input, answer: Answer, kind: Question -> bool, q: Question)
    requires input.contract.Some? ==> WellFormed(input.contract.value)
    requires Compile(input) == Ok(answer)
    ensures Filter(Asked(input), kind) == [q] <==> Sole(input, kind, q)
  {
    var found := Filter(Asked(input), kind);
    Singleton(found, q);
    forall p ensures p in found <==> Asks(input, p) && kind(p) {
      KindMeans(input, answer, kind, p);
    }
    KindMeans(input, answer, kind, q);
  }

  lemma NoneMeans(input: Input, answer: Answer)
    requires input.contract.Some? ==> WellFormed(input.contract.value)
    requires Compile(input) == Ok(answer)
    ensures Filter(Asked(input), HoldsAll) == [] <==> forall p :: !AsksAll(input, p)
  {
    var found := Filter(Asked(input), HoldsAll);
    forall p ensures p in found <==> AsksAll(input, p) {
      KindMeans(input, answer, HoldsAll, p);
    }
    assert found != [] ==> found[0] in found;
  }

  lemma SeveralOf(input: Input, found: seq<Question>)
    requires forall p :: p in found <==> AsksAll(input, p)
    requires forall p :: p in found ==> (Repeats(found, p) <==> Twice(input, QuestionsOf, p))
    ensures |found| > 1 <==> ManyTaskQuestions(input)
  {
    Several(found);
    if |found| > 1 {
      var p, q :| p in found && q in found && (p != q || Repeats(found, p));
      assert AsksAll(input, p) && AsksAll(input, q);
    }
  }

  lemma SeveralMeans(input: Input, answer: Answer)
    requires input.contract.Some? ==> WellFormed(input.contract.value)
    requires Compile(input) == Ok(answer)
    ensures |Filter(Asked(input), HoldsAll)| > 1 <==> ManyTaskQuestions(input)
  {
    var found := Filter(Asked(input), HoldsAll);
    forall p ensures p in found <==> AsksAll(input, p) {
      KindMeans(input, answer, HoldsAll, p);
    }
    forall p | p in found ensures Repeats(found, p) <==> Twice(input, QuestionsOf, p) {
      KindMeans(input, answer, HoldsAll, p);
    }
    SeveralOf(input, found);
  }

  lemma SoleTask(input: Input, q: Question)
    ensures Sole(input, HoldsAll, q) <==> AsksAll(input, q) && !ManyTaskQuestions(input)
  {
    if Sole(input, HoldsAll, q) {
      forall p | AsksAll(input, p) ensures p == q {
      }
    } else if AsksAll(input, q) && !Twice(input, QuestionsOf, q) {
      var p :| Asks(input, p) && HoldsAll(p) && p != q;
      assert AsksAll(input, p);
    }
  }

  lemma NamedMeans(input: Input, answer: Answer, q: Question)
    requires input.contract.Some? ==> WellFormed(input.contract.value)
    requires Compile(input) == Ok(answer)
    ensures Asks(input, q) && NamedBy(answer.resolution)(q) <==> AnswersRequest(input, q)
  {
    ResolveExactly(input.request, input.contributions);
    assert Resolve(input.request, input.contributions) == Ok(answer.resolution);
    if input.request.Some? {
      forall i, r | Answers(input.contributions, i, input.request.value, r) ensures answer.resolution == Some(r) {
        assert Resolve(input.request, input.contributions) == Ok(Some(r));
      }
      if answer.resolution.Some? {
        var i :| Answers(input.contributions, i, input.request.value, answer.resolution.value);
      }
    }
  }

  lemma SoleAnswer(input: Input, answer: Answer, q: Question)
    requires input.contract.Some? ==> WellFormed(input.contract.value)
    requires Compile(input) == Ok(answer)
    ensures Sole(input, NamedBy(answer.resolution), q) <==>
      AnswersRequest(input, q) && !Twice(input, QuestionsOf, q) && forall p :: AnswersRequest(input, p) ==> p == q
  {
    forall p ensures Asks(input, p) && NamedBy(answer.resolution)(p) <==> AnswersRequest(input, p) {
      NamedMeans(input, answer, p);
    }
  }

  lemma NothingReady(input: Input, answer: Answer)
    requires input.contract.Some? ==> WellFormed(input.contract.value)
    requires Compile(input) == Ok(answer)
    ensures answer.ready == [] && PairwiseIndependent(input.contract, AvailableActions(input)) <==>
      forall a :: !Offerable(input, a)
  {
    var available := AvailableActions(input);
    forall a ensures a in available <==> Offerable(input, a) {
      AvailableMeans(input, a);
    }
    assert available != [] ==> available[0] in available;
  }

  ghost predicate Found(task: seq<Question>, named: seq<Question>, q: Question) {
    task == [q] || (task == [] && named == [q])
  }

  lemma FoundMeans(input: Input, answer: Answer, q: Question)
    requires input.contract.Some? ==> WellFormed(input.contract.value)
    requires Compile(input) == Ok(answer)
    ensures Found(Filter(Asked(input), HoldsAll), Filter(Asked(input), NamedBy(answer.resolution)), q) <==>
      Requested(input, q)
  {
    TaskFound(input, answer, q);
    NamedFound(input, answer, q);
  }

  lemma RequestIsFound(input: Input, answer: Answer, q: Question)
    requires input.contract.Some? ==> WellFormed(input.contract.value)
    requires Compile(input) == Ok(answer)
    ensures answer.request == Some(q) <==>
      && answer.ready == [] && PairwiseIndependent(input.contract, AvailableActions(input))
      && Found(Filter(Asked(input), HoldsAll), Filter(Asked(input), NamedBy(answer.resolution)), q)
  {
    RequestField(input, answer);
    ChosenIsFound(answer.ready == [] && PairwiseIndependent(input.contract, AvailableActions(input)),
                  Filter(Asked(input), HoldsAll), Filter(Asked(input), NamedBy(answer.resolution)), q);
  }

  ghost function Chosen(open: bool, task: seq<Question>, named: seq<Question>): Option<Question> {
    if open && |task| == 1 then Some(task[0])
    else if open && task == [] && |named| == 1 then Some(named[0])
    else None
  }

  lemma RequestField(input: Input, answer: Answer)
    requires input.contract.Some? ==> WellFormed(input.contract.value)
    requires Compile(input) == Ok(answer)
    ensures answer.request == Chosen(answer.ready == [] && PairwiseIndependent(input.contract, AvailableActions(input)),
      Filter(Asked(input), HoldsAll), Filter(Asked(input), NamedBy(answer.resolution)))
  {
  }

  lemma ChosenIsFound(open: bool, task: seq<Question>, named: seq<Question>, q: Question)
    ensures Chosen(open, task, named) == Some(q) <==> open && Found(task, named, q)
  {
  }

  lemma TaskFound(input: Input, answer: Answer, q: Question)
    requires input.contract.Some? ==> WellFormed(input.contract.value)
    requires Compile(input) == Ok(answer)
    ensures Filter(Asked(input), HoldsAll) == [q] <==> AsksAll(input, q) && !ManyTaskQuestions(input)
  {
    SoleMeans(input, answer, HoldsAll, q);
    SoleTask(input, q);
  }

  lemma NamedFound(input: Input, answer: Answer, q: Question)
    requires input.contract.Some? ==> WellFormed(input.contract.value)
    requires Compile(input) == Ok(answer)
    ensures Filter(Asked(input), HoldsAll) == [] && Filter(Asked(input), NamedBy(answer.resolution)) == [q] <==>
      && (forall p :: !AsksAll(input, p)) && AnswersRequest(input, q) && !Twice(input, QuestionsOf, q)
      && forall p :: AnswersRequest(input, p) ==> p == q
  {
    NoneMeans(input, answer);
    SoleMeans(input, answer, NamedBy(answer.resolution), q);
    SoleAnswer(input, answer, q);
  }

  /** A decision is requested exactly when nothing is offerable and it is the one question that
      holds up all work or, when none does, the one answer to the public request. */
  lemma RequestExactly(input: Input, answer: Answer, q: Question)
    requires input.contract.Some? ==> WellFormed(input.contract.value)
    requires Compile(input) == Ok(answer)
    ensures answer.request == Some(q) <==> (forall a :: !Offerable(input, a)) && Requested(input, q)
  {
    RequestIsFound(input, answer, q);
    NothingReady(input, answer);
    FoundMeans(input, answer, q);
  }

  // ----- the status -----

  lemma BlockersMean(input: Input)
    ensures (exists b :: b in Gather(Sources(input), BlockersOf) && TASK in b.affects) <==> TaskBlocked(input)
  {
    forall b ensures b in Gather(Sources(input), BlockersOf) <==> exists c :: Current(input, c) && b in c.blockers {
      GatherMembers(Sources(input), BlockersOf, b);
      forall c ensures c in Sources(input) <==> Current(input, c) {
        SourcesMembers(input, c);
      }
    }
  }

  /** The status in the answer's own terms. */
  lemma StatusChain(input: Input, answer: Answer)
    requires input.contract.Some? ==> WellFormed(input.contract.value)
    requires Compile(input) == Ok(answer)
    ensures answer.status ==
      if answer.terminal.Some? then "terminal"
      else if answer.ready != [] then "actionable"
      else if !PairwiseIndependent(input.contract, AvailableActions(input)) || |Filter(Asked(input), HoldsAll)| > 1
              || TaskBlocked(input) then "blocked"
      else if answer.request.Some? then "decision"
      else "direct"
  {
    BlockersMean(input);
    assert answer.questions == Asked(input);
  }

  /** What each status says of the contributions: the intended outcome is concluded; it is not
      and something is offered; nothing is, because of a conflict, several questions or a blocker
      that hold up all work; one question is to be decided; or none of these. */
  lemma StatusExactly(input: Input, answer: Answer)
    requires input.contract.Some? ==> WellFormed(input.contract.value)
    requires Compile(input) == Ok(answer)
    ensures var concluded := exists c :: Concludes(input, c);
      var offerable := exists a :: Offerable(input, a);
      var held := ManyTaskQuestions(input) || TaskBlocked(input);
      && (answer.status == "terminal" <==> concluded)
      && (answer.status == "actionable" <==> !concluded && offerable && !Conflict(input))
      && (answer.status == "blocked" <==> !concluded && (Conflict(input) || (!offerable && held)))
      && (answer.status == "decision" <==> !concluded && !offerable && !held && exists q :: Requested(input, q))
      && (answer.status == "direct" <==> !concluded && !offerable && !held && forall q :: !Requested(input, q))
  {
    StatusChain(input, answer);
    TerminalExactly(input, answer);
    ConflictMeans(input, answer);
    SeveralMeans(input, answer);
    NothingReady(input, answer);
    OfferedExactly(input, answer);
    if answer.request.Some? {
      RequestExactly(input, answer, answer.request.value);
    }
    forall q | Requested(input, q) && forall a :: !Offerable(input, a) ensures answer.request == Some(q) {
      RequestExactly(input, answer, q);
    }
  }

  lemma OfferedExactly(input: Input, answer: Answer)
    requires input.contract.Some? ==> WellFormed(input.contract.value)
    requires Compile(input) == Ok(answer)
    ensures answer.ready != [] <==> (exists a :: Offerable(input, a)) && !Conflict(input)
  {
    forall a ensures a in answer.ready <==> Offerable(input, a) && !Conflict(input) {
      ReadyExactly(input, answer, a);
    }
    assert answer.ready != [] ==> answer.ready[0] in answer.ready;
  }

  // ----- everything else in the answer -----

  /** The single offered action, when there is no terminal authority. */
  lemma PrimaryExactly(input: Input, answer: Answer, a: OwnedAction)
    requires input.contract.Some? ==> WellFormed(input.contract.value)
    requires Compile(input) == Ok(answer)
    ensures answer.primary == Some(a) <==>
      && (forall c :: !Concludes(input, c)) && Offerable(input, a) && !Twice(input, ActionsOf, a)
      && forall b :: Offerable(input, b) ==> b == a
  {
    TerminalExactly(input, answer);
    PrimaryIsSole(answer, a, input);
    ConflictMeans(input, answer);
    if Offerable(input, a) {
      AvailableTwice(input, answer, a);
    }
    forall b ensures b in AvailableActions(input) <==> Offerable(input, b) {
      AvailableMeans(input, b);
    }
    Singleton(AvailableActions(input), a);
    if forall b :: b in AvailableActions(input) <==> b == a {
      SoleDoesNotConflict(input, a);
    }
  }

  lemma SoleDoesNotConflict(input: Input, a: OwnedAction)
    requires input.contract.Some? ==> WellFormed(input.contract.value)
    requires forall b :: Offerable(input, b) ==> b == a
    ensures !Twice(input, ActionsOf, a) ==> !Conflict(input)
  {
  }

  lemma PrimaryIsSole(answer: Answer, a: OwnedAction, input: Input)
    requires input.contract.Some? ==> WellFormed(input.contract.value)
    requires Compile(input) == Ok(answer)
    ensures answer.primary == Some(a) <==>
      answer.terminal.None? && PairwiseIndependent(input.contract, AvailableActions(input)) &&
      AvailableActions(input) == [a]
  {
  }

  /** The answer lists the current owners once, and each current blocker, question and action as
      often as it is contributed. */
  lemma ListsExactly(input: Input, answer: Answer)
    requires input.contract.Some? ==> WellFormed(input.contract.value)
    requires Compile(input) == Ok(answer)
    ensures forall o :: o in answer.owners <==> exists c :: Current(input, c) && c.owner == o
    ensures forall b :: b in answer.blockers <==> exists c :: Current(input, c) && b in c.blockers
    ensures forall q :: q in answer.questions <==> exists c :: Current(input, c) && q in c.questions
    ensures forall a :: a in answer.actions <==>
      exists c :: Current(input, c) && c.owner == a.owner && a.action in c.actions
    ensures forall b :: multiset(answer.blockers)[b] >= 2 <==> Twice(input, BlockersOf, b)
    ensures forall q :: multiset(answer.questions)[q] >= 2 <==> Twice(input, QuestionsOf, q)
    ensures forall a :: multiset(answer.actions)[a] >= 2 <==> Twice(input, ActionsOf, a)
    ensures Resolve(input.request, input.contributions) == Ok(answer.resolution)
  {
    forall c ensures c in Sources(input) <==> Current(input, c) {
      SourcesMembers(input, c);
    }
    forall o ensures o in Owners(Sources(input)) <==> exists c :: c in Sources(input) && c.owner == o {
      OwnersMean(Sources(input), o);
    }
    ListedBlockers(input, answer);
    ListedQuestions(input, answer);
    ListedActions(input, answer);
  }

  lemma {:induction false} OwnersMean(cs: seq<Contribution>, owner: string)
    ensures owner in Owners(cs) <==> exists c :: c in cs && c.owner == owner
  {
    if cs != [] {
      OwnersMean(cs[1..], owner);
      assert forall c :: c in cs <==> c == cs[0] || c in cs[1..];
    }
  }

  lemma ListedBlockers(input: Input, answer: Answer)
    requires input.contract.Some? ==> WellFormed(input.contract.value)
    requires Compile(input) == Ok(answer)
    ensures forall b :: b in answer.blockers <==> exists c :: Current(input, c) && b in c.blockers
    ensures forall b :: multiset(answer.blockers)[b] >= 2 <==> Twice(input, BlockersOf, b)
  {
    assert answer.blockers == Gather(Sources(input), BlockersOf);
    forall b
      ensures b in answer.blockers <==> exists c :: Current(input, c) && b in c.blockers
      ensures multiset(answer.blockers)[b] >= 2 <==> Twice(input, BlockersOf, b)
    {
      Listed(input, answer, BlockersOf, answer.blockers, b);
    }
  }

  lemma ListedQuestions(input: Input, answer: Answer)
    requires input.contract.Some? ==> WellFormed(input.contract.value)
    requires Compile(input) == Ok(answer)
    ensures forall q :: q in answer.questions <==> exists c :: Current(input, c) && q in c.questions
    ensures forall q :: multiset(answer.questions)[q] >= 2 <==> Twice(input, QuestionsOf, q)
  {
    assert answer.questions == SortBy(Gather(Sources(input), QuestionsOf), QuestionKey);
    SortBySorts(Gather(Sources(input), QuestionsOf), QuestionKey);
    forall q
      ensures q in answer.questions <==> exists c :: Current(input, c) && q in c.questions
      ensures multiset(answer.questions)[q] >= 2 <==> Twice(input, QuestionsOf, q)
    {
      Listed(input, answer, QuestionsOf, answer.questions, q);
    }
  }

  lemma ListedActions(input: Input, answer: Answer)
    requires input.contract.Some? ==> WellFormed(input.contract.value)
    requires Compile(input) == Ok(answer)
    ensures forall a :: a in answer.actions <==>
      exists c :: Current(input, c) && c.owner == a.owner && a.action in c.actions
    ensures forall a :: multiset(answer.actions)[a] >= 2 <==> Twice(input, ActionsOf, a)
  {
    assert answer.actions == SortBy(Gather(Sources(input), ActionsOf), ActionKey);
    SortBySorts(Gather(Sources(input), ActionsOf), ActionKey);
    forall a
      ensures a in answer.actions <==> exists c :: Current(input, c) && c.owner == a.owner && a.action in c.actions
      ensures multiset(answer.actions)[a] >= 2 <==> Twice(input, ActionsOf, a)
    {
      Listed(input, answer, ActionsOf, answer.actions, a);
      forall c ensures a in ActionsOf(c) <==> c.owner == a.owner && a.action in c.actions {
        ActionsOfMeans(c, a);
      }
    }
  }

  lemma ActionsOfMeans(c: Contribution, a: OwnedAction)
    ensures a in ActionsOf(c) <==> c.owner == a.owner && a.action in c.actions
  {
    if c.owner == a.owner && a.action in c.actions {
      var k :| 0 <= k < |c.actions| && c.actions[k] == a.action;
      assert ActionsOf(c)[k] == a;
    }
  }

  lemma Listed<T>(input: Input, answer: Answer, parts: Contribution -> seq<T>, list: seq<T>, x: T)
    requires input.contract.Some? ==> WellFormed(input.contract.value)
    requires Compile(input) == Ok(answer) && multiset(list) == multiset(Gather(Sources(input), parts))
    ensures x in list <==> exists c :: Current(input, c) && x in parts(c)
    ensures multiset(list)[x] >= 2 <==> Twice(input, parts, x)
  {
    assert x in list <==> x in multiset(list);
    assert x in Gather(Sources(input), parts) <==> x in multiset(Gather(Sources(input), parts));
    GatherMembers(Sources(input), parts, x);
    TwiceMeans(input, answer, parts, x);
    forall c ensures c in Sources(input) <==> Current(input, c) {
      SourcesMembers(input, c);
    }
  }

  /** The lists are in the order of their owners and names, and so are the owners. */
  lemma ListsAreSorted(input: Input, answer: Answer)
    requires input.contract.Some? ==> WellFormed(input.contract.value)
    requires Compile(input) == Ok(answer)
    ensures forall i, j :: 0 <= i < j < |answer.owners| ==>
      answer.owners[i] != answer.owners[j] && TextLeq(answer.owners[i], answer.owners[j])
    ensures forall i, j :: 0 <= i < j < |answer.questions| ==>
      var p, q := answer.questions[i], answer.questions[j];
      KeyLeq([p.owner, p.id, p.consequence], [q.owner, q.id, q.consequence])
    ensures forall i, j :: 0 <= i < j < |answer.actions| ==>
      var a, b := answer.actions[i], answer.actions[j];
      KeyLeq([a.owner, a.action.operation, a.action.consequence], [b.owner, b.action.operation, b.action.consequence])
  {
    OwnersAreSorted(input, answer);
    QuestionsAreSorted(input, answer);
    ActionsAreSorted(input, answer);
  }

  lemma OwnersAreSorted(input: Input, answer: Answer)
    requires input.contract.Some? ==> WellFormed(input.contract.value)
    requires Compile(input) == Ok(answer)
    ensures forall i, j :: 0 <= i < j < |answer.owners| ==>
      answer.owners[i] != answer.owners[j] && TextLeq(answer.owners[i], answer.owners[j])
  {
    CompiledParts(input, answer);
    OneEachIsDistinct(Sources(input));
    OwnersInOrder(Sources(input));
  }

  lemma QuestionsAreSorted(input: Input, answer: Answer)
    requires input.contract.Some? ==> WellFormed(input.contract.value)
    requires Compile(input) == Ok(answer)
    ensures forall i, j :: 0 <= i < j < |answer.questions| ==>
      var p, q := answer.questions[i], answer.questions[j];
      KeyLeq([p.owner, p.id, p.consequence], [q.owner, q.id, q.consequence])
  {
    assert answer.questions == SortBy(Gather(Sources(input), QuestionsOf), QuestionKey);
    SortBySorts(Gather(Sources(input), QuestionsOf), QuestionKey);
    KeysInOrder(answer.questions, QuestionKey);
  }

  lemma ActionsAreSorted(input: Input, answer: Answer)
    requires input.contract.Some? ==> WellFormed(input.contract.value)
    requires Compile(input) == Ok(answer)
    ensures forall i, j :: 0 <= i < j < |answer.actions| ==>
      var a, b := answer.actions[i], answer.actions[j];
      KeyLeq([a.owner, a.action.operation, a.action.consequence], [b.owner, b.action.operation, b.action.consequence])
  {
    assert answer.actions == SortBy(Gather(Sources(input), ActionsOf), ActionKey);
    SortBySorts(Gather(Sources(input), ActionsOf), ActionKey);
    KeysInOrder(answer.actions, ActionKey);
  }

  lemma KeysInOrder<T>(xs: seq<T>, key: T -> Key)
    requires SortedBy(xs, key)
    ensures forall i, j :: 0 <= i < j < |xs| ==> KeyLeq(key(xs[i]), key(xs[j]))
  {
    var leq := ByKey(key);
    assert forall i, j :: 0 <= i < j < |xs| ==> leq(xs[i], xs[j]);
  }

  lemma {:induction false} OwnersAt(cs: seq<Contribution>, i: nat)
    requires i < |cs|
    ensures |Owners(cs)| == |cs| && Owners(cs)[i] == cs[i].owner
  {
    if |cs| > 1 {
      OwnersAt(cs[1..], if i == 0 then 0 else i - 1);
    }
  }

  lemma OwnersInOrder(cs: seq<Contribution>)
    requires SortedBy(cs, OwnerKey) && DistinctKeys(cs, OwnerKey)
    ensures forall i, j :: 0 <= i < j < |Owners(cs)| ==>
      Owners(cs)[i] != Owners(cs)[j] && TextLeq(Owners(cs)[i], Owners(cs)[j])
  {
    if cs != [] {
      OwnersAt(cs, 0);
    }
    forall i, j | 0 <= i < j < |Owners(cs)|
      ensures Owners(cs)[i] != Owners(cs)[j] && TextLeq(Owners(cs)[i], Owners(cs)[j])
    {
      OwnersAt(cs, i);
      OwnersAt(cs, j);
      assert ByKey(OwnerKey)(cs[i], cs[j]) && OwnerKey(cs[i]) != OwnerKey(cs[j]);
      TextTotal(cs[i].owner, cs[j].owner);
    }
  }

  /** A composition blocker names what cannot be offered together: the conflicting actions, or the
      questions that hold up all work. */
  lemma CompositionExactly(input: Input, answer: Answer)
    requires input.contract.Some? ==> WellFormed(input.contract.value)
    requires Compile(input) == Ok(answer)
    ensures answer.composition.ManyActions? <==> Conflict(input)
    ensures answer.composition.ManyDecisions? <==> ManyTaskQuestions(input)
    ensures answer.composition.ManyDecisions? ==> forall q :: q in answer.composition.questions <==> AsksAll(input, q)
    ensures answer.composition.ManyActions? ==> forall id :: id in answer.composition.consequences <==>
      exists a :: Offerable(input, a) && a.action.consequence == id
  {
    ConflictMeans(input, answer);
    SeveralMeans(input, answer);
    ManyQuestionsHoldAll(input);
    CompositionIs(input, answer);
    TaskQuestionsNamed(input, answer);
    ConflictingNamed(input);
  }

  lemma TaskQuestionsNamed(input: Input, answer: Answer)
    requires input.contract.Some? ==> WellFormed(input.contract.value)
    requires Compile(input) == Ok(answer)
    ensures forall q :: q in Filter(Asked(input), HoldsAll) <==> AsksAll(input, q)
  {
    forall q ensures q in Filter(Asked(input), HoldsAll) <==> AsksAll(input, q) {
      KindMeans(input, answer, HoldsAll, q);
    }
  }

  lemma ConflictingNamed(input: Input)
    requires input.contract.Some? ==> WellFormed(input.contract.value)
    ensures forall id :: id in Consequences(AvailableActions(input)) <==>
      exists a :: Offerable(input, a) && a.action.consequence == id
  {
    forall a ensures a in AvailableActions(input) <==> Offerable(input, a) {
      AvailableMeans(input, a);
    }
    forall id ensures id in Consequences(AvailableActions(input)) <==>
      exists a :: Offerable(input, a) && a.action.consequence == id
    {
      ConsequencesMean(AvailableActions(input), id);
    }
  }

  lemma {:induction false} ConsequencesMean(actions: seq<OwnedAction>, id: string)
    ensures id in Consequences(actions) <==> exists a :: a in actions && a.action.consequence == id
  {
    if actions != [] {
      ConsequencesMean(actions[1..], id);
      assert forall a :: a in actions <==> a == actions[0] || a in actions[1..];
    }
  }

  lemma ManyQuestionsHoldAll(input: Input)
    requires input.contract.Some? ==> WellFormed(input.contract.value)
    ensures ManyTaskQuestions(input) ==> (forall a :: !Offerable(input, a)) && !Conflict(input)
  {
    if p, q :| AsksAll(input, p) && AsksAll(input, q) && (p != q || Twice(input, QuestionsOf, p)) {
      var c :| Current(input, c) && p in c.questions;
      assert Touches(c, TASK);
    }
  }

  lemma CompositionIs(input: Input, answer: Answer)
    requires input.contract.Some? ==> WellFormed(input.contract.value)
    requires Compile(input) == Ok(answer)
    ensures answer.composition ==
      if !PairwiseIndependent(input.contract, AvailableActions(input)) then
        ManyActions(Consequences(AvailableActions(input)))
      else if |Filter(Asked(input), HoldsAll)| > 1 then ManyDecisions(Filter(Asked(input), HoldsAll))
      else Settled
  {
    TaskQuestionsHoldAll(input, answer);
    assert answer.questions == Asked(input);
  }

  lemma TaskQuestionsHoldAll(input: Input, answer: Answer)
    requires input.contract.Some? ==> WellFormed(input.contract.value)
    requires Compile(input) == Ok(answer)
    ensures |Filter(Asked(input), HoldsAll)| > 1 ==> AvailableActions(input) == []
  {
    SeveralMeans(input, answer);
    ManyQuestionsHoldAll(input);
    forall a ensures a in AvailableActions(input) <==> Offerable(input, a) {
      AvailableMeans(input, a);
    }
    EmptyOrMember(AvailableActions(input));
  }

  lemma EmptyOrMember<T(!new)>(xs: seq<T>)
    ensures xs == [] || exists x :: x in xs
  {
    if xs != [] {
      assert xs[0] in xs;
    }
  }

  // ----- the public request -----

  /** Contribution `i` alone responds, for the request's owner, its source revision and its
      identity, naming current consequences of the kind it declares. */
  ghost predicate Answers(cs: seq<Contribution>, i: int, request: PublicRequest, response: Response) {
    && 0 <= i < |cs| && cs[i].response == Some(response) && cs[i].relevant
    && (forall j :: 0 <= j < |cs| && j != i ==> cs[j].response.None?)
    && cs[i].owner == request.owner && cs[i].revision == request.sourceRevision && response.identity == request.identity
    && (response.status == "settled" <==> response.consequences == {})
    && forall id :: id in response.consequences ==> Owns(cs[i], response.status, id)
  }

  /** The contribution has a consequence of this kind with this identity. */
  ghost predicate Owns(c: Contribution, kind: string, id: string) {
    || (kind == "action" && exists a :: a in c.actions && a.consequence == id)
    || (kind == "decision" && exists q :: q in c.questions && q.consequence == id)
    || (kind == "blocked" && exists b :: b in c.blockers && b.consequence == id)
  }

  lemma CandidatesMean(c: Contribution, kind: string, id: string)
    ensures id in Candidates(c, kind) <==> Owns(c, kind, id)
  {
  }

  lemma {:induction false} RespondingNone(cs: seq<Contribution>)
    ensures Responding(cs) == [] <==> forall j :: 0 <= j < |cs| ==> cs[j].response.None?
  {
    if cs != [] {
      RespondingNone(cs[1..]);
      assert forall j :: 1 <= j < |cs| ==> cs[j] == cs[1..][j - 1];
    }
  }

  ghost predicate OnlyResponder(cs: seq<Contribution>, i: int, c: Contribution) {
    0 <= i < |cs| && cs[i] == c && c.response.Some? && forall j :: 0 <= j < |cs| && j != i ==> cs[j].response.None?
  }

  lemma {:induction false} RespondingOne(cs: seq<Contribution>, i: nat)
    requires i < |cs| && OnlyResponder(cs, i, cs[i])
    ensures Responding(cs) == [cs[i]]
  {
    var rest := cs[1..];
    assert forall j :: 0 <= j < |rest| ==> rest[j] == cs[j + 1];
    if i == 0 {
      RespondingNone(rest);
    } else {
      assert OnlyResponder(rest, i - 1, cs[i]);
      RespondingOne(rest, i - 1);
    }
  }

  lemma {:induction false} RespondingAt(cs: seq<Contribution>, c: Contribution) returns (i: nat)
    requires Responding(cs) == [c]
    ensures OnlyResponder(cs, i, c)
  {
    var rest := cs[1..];
    assert forall j :: 1 <= j < |cs| ==> cs[j] == rest[j - 1];
    if cs[0].response.Some? {
      i := 0;
      RespondingNone(rest);
    } else {
      var k := RespondingAt(rest, c);
      i := k + 1;
      assert cs[i] == rest[k];
    }
  }

  /** A request is resolved exactly when it has one proper answer; without a request nobody
      may respond. */
  lemma ResolveExactly(request: Option<PublicRequest>, cs: seq<Contribution>)
    ensures request.None? ==> (Resolve(request, cs).Ok? <==> forall j :: 0 <= j < |cs| ==> cs[j].response.None?)
    ensures request.None? && Resolve(request, cs).Ok? ==> Resolve(request, cs) == Ok(None)
    ensures request.Some? ==> forall r :: Resolve(request, cs) == Ok(Some(r)) <==>
      exists i :: Answers(cs, i, request.value, r)
    ensures request.Some? && Resolve(request, cs).Ok? ==> Resolve(request, cs).value.Some?
  {
    RespondingNone(cs);
    forall c, kind, id ensures id in Candidates(c, kind) <==> Owns(c, kind, id) {
      CandidatesMean(c, kind, id);
    }
    if request.Some? {
      forall r ensures Resolve(request, cs) == Ok(Some(r)) <==> exists i :: Answers(cs, i, request.value, r) {
        if i :| Answers(cs, i, request.value, r) {
          RespondingOne(cs, i);
        }
        if Resolve(request, cs) == Ok(Some(r)) {
          var i := RespondingAt(cs, Responding(cs)[0]);
          assert Answers(cs, i, request.value, r);
        }
      }
    }
  }
}
