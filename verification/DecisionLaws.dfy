/** What the decision compiler promises: offered actions commute, restrictions only
    restrict, and the order of the contributions does not matter. */
module DecisionLaws {
  import opened Wrappers
  import opened Ordering
  import opened Decision

  // ----- the offered actions commute -----

  /** The state of every domain that has one. */
  type World = map<string, string>

  type Semantics = (OwnedAction, World) -> World

  ghost predicate Agree(w: World, v: World, domains: set<string>) {
    forall d :: d in domains ==> (d in w <==> d in v) && (d in w ==> w[d] == v[d])
  }

  /** The operation changes only domains it may write, as a function of those it may read
      or write. */
  ghost predicate Confined(exec: Semantics, a: OwnedAction, f: Footprint) {
    && (forall w: World, d :: d !in f.writes ==> (d in exec(a, w) <==> d in w) && (d in w ==> exec(a, w)[d] == w[d]))
    && forall w: World, v: World :: Agree(w, v, f.inputs + f.writes) ==> Agree(exec(a, w), exec(a, v), f.writes)
  }

  ghost predicate AllConfined(exec: Semantics, contract: Contract, actions: seq<OwnedAction>)
    requires WellFormed(contract)
  {
    forall a :: a in actions && FootprintOf(contract, a).Some? ==> Confined(exec, a, FootprintOf(contract, a).value)
  }

  function RunAll(exec: Semantics, actions: seq<OwnedAction>, w: World): World {
    if actions == [] then w else RunAll(exec, actions[1..], exec(actions[0], w))
  }

  lemma WritesSurvive(exec: Semantics, a: OwnedAction, f: Footprint, b: OwnedAction, g: Footprint, w: World, d: string)
    requires Confined(exec, a, f) && Confined(exec, b, g) && Disjoint(f, g) && d in f.writes
    ensures d in exec(b, exec(a, w)) <==> d in exec(a, exec(b, w))
    ensures d in exec(b, exec(a, w)) ==> exec(b, exec(a, w))[d] == exec(a, exec(b, w))[d]
  {
    assert Agree(w, exec(b, w), f.inputs + f.writes);
    assert Agree(exec(a, w), exec(a, exec(b, w)), f.writes);
  }

  lemma IndependentCommute(exec: Semantics, a: OwnedAction, f: Footprint, b: OwnedAction, g: Footprint, w: World)
    requires Confined(exec, a, f) && Confined(exec, b, g) && Disjoint(f, g)
    ensures exec(b, exec(a, w)) == exec(a, exec(b, w))
  {
    var left, right := exec(b, exec(a, w)), exec(a, exec(b, w));
    forall d ensures (d in left <==> d in right) && (d in left ==> left[d] == right[d]) {
      if d in f.writes {
        WritesSurvive(exec, a, f, b, g, w, d);
      } else if d in g.writes {
        WritesSurvive(exec, b, g, a, f, w, d);
      }
    }
    assert left.Keys == right.Keys;
  }

  ghost predicate Commute(exec: Semantics, a: OwnedAction, b: OwnedAction) {
    forall w: World :: exec(b, exec(a, w)) == exec(a, exec(b, w))
  }

  ghost predicate AllCommute(exec: Semantics, actions: seq<OwnedAction>) {
    forall a, b :: a in actions && b in actions && a != b ==> Commute(exec, a, b)
  }

  function Without(ys: seq<OwnedAction>, j: nat): seq<OwnedAction>
    requires j < |ys|
  {
    ys[..j] + ys[j + 1..]
  }

  lemma Unfold(exec: Semantics, a: OwnedAction, tail: seq<OwnedAction>, w: World)
    ensures RunAll(exec, [a] + tail, w) == RunAll(exec, tail, exec(a, w))
  {
    assert ([a] + tail)[1..] == tail;
  }

  /** Running one action first changes nothing. */
  lemma {:induction false} FirstOrLater(exec: Semantics, actions: seq<OwnedAction>, j: nat, w: World)
    requires j < |actions| && AllCommute(exec, actions)
    ensures RunAll(exec, actions, w) == RunAll(exec, Without(actions, j), exec(actions[j], w))
    decreases j
  {
    if j == 0 {
      assert Without(actions, 0) == actions[1..];
    } else {
      var a, b, rest := actions[0], actions[j], actions[1..];
      FirstOrLater(exec, rest, j - 1, exec(a, w));
      assert Without(actions, j) == [a] + Without(rest, j - 1);
      Unfold(exec, a, Without(rest, j - 1), exec(b, w));
      assert a == b || Commute(exec, a, b);
    }
  }

  lemma WithoutOne(ys: seq<OwnedAction>, j: nat)
    requires j < |ys|
    ensures multiset(Without(ys, j)) == multiset(ys) - multiset{ys[j]}
  {
    assert ys == ys[..j] + [ys[j]] + ys[j + 1..];
  }

  lemma FewerCommute(exec: Semantics, ys: seq<OwnedAction>, j: nat)
    requires j < |ys| && AllCommute(exec, ys)
    ensures AllCommute(exec, Without(ys, j))
  {
    forall a | a in Without(ys, j) ensures a in ys {
    }
  }

  lemma {:induction false} AnyOrder(exec: Semantics, xs: seq<OwnedAction>, ys: seq<OwnedAction>, w: World)
    requires multiset(xs) == multiset(ys) && AllCommute(exec, ys)
    ensures RunAll(exec, xs, w) == RunAll(exec, ys, w)
    decreases |xs|
  {
    assert |xs| == |multiset(xs)| == |multiset(ys)| == |ys|;
    if xs != [] {
      assert xs[0] in multiset(ys);
      var j :| 0 <= j < |ys| && ys[j] == xs[0];
      WithoutOne(ys, j);
      WithoutOne(xs, 0);
      FewerCommute(exec, ys, j);
      assert Without(xs, 0) == xs[1..];
      AnyOrder(exec, xs[1..], Without(ys, j), exec(xs[0], w));
      FirstOrLater(exec, ys, j, w);
    }
  }

  /** However the offered actions are ordered, running them all from any state of the domains
      reaches the same state. */
  lemma ReadyActionsCommute(input: Input, answer: Answer, exec: Semantics, order: seq<OwnedAction>, w: World)
    requires input.contract.Some? && WellFormed(input.contract.value)
    requires Compile(input) == Ok(answer)
    requires AllConfined(exec, input.contract.value, answer.ready)
    requires multiset(order) == multiset(answer.ready)
    ensures RunAll(exec, order, w) == RunAll(exec, answer.ready, w)
  {
    ReadyIndependent(input, answer);
    PairwiseCommute(input.contract.value, exec, answer.ready);
    AnyOrder(exec, order, answer.ready, w);
  }

  lemma ReadyIndependent(input: Input, answer: Answer)
    requires input.contract.Some? && WellFormed(input.contract.value)
    requires Compile(input) == Ok(answer)
    ensures PairwiseIndependent(input.contract, answer.ready)
  {
  }

  lemma PairwiseCommute(contract: Contract, exec: Semantics, actions: seq<OwnedAction>)
    requires WellFormed(contract) && PairwiseIndependent(Some(contract), actions)
    requires AllConfined(exec, contract, actions)
    ensures AllCommute(exec, actions)
  {
    forall a, b | a in actions && b in actions && a != b ensures Commute(exec, a, b) {
      var i :| 0 <= i < |actions| && actions[i] == a;
      var j :| 0 <= j < |actions| && actions[j] == b;
      assert Independent(Some(contract), a, b) || Independent(Some(contract), b, a);
      var f, g := FootprintOf(contract, a).value, FootprintOf(contract, b).value;
      forall w: World ensures exec(b, exec(a, w)) == exec(a, exec(b, w)) {
        IndependentCommute(exec, a, f, b, g, w);
      }
    }
  }

  // ----- the order of contributions does not matter -----

  lemma {:induction false} FilterCount<T(!new)>(xs: seq<T>, keep: T -> bool, x: T)
    ensures multiset(Filter(xs, keep))[x] == if keep(x) then multiset(xs)[x] else 0
  {
    if xs != [] {
      FilterCount(xs[1..], keep, x);
      assert xs == [xs[0]] + xs[1..];
      assert multiset(xs) == multiset{xs[0]} + multiset(xs[1..]);
    }
  }

  lemma {:induction false} FilterNone<T(!new)>(xs: seq<T>, keep: T -> bool)
    requires forall x :: x in xs ==> !keep(x)
    ensures Filter(xs, keep) == []
  {
    if xs != [] {
      FilterNone(xs[1..], keep);
    }
  }

  lemma FilterPermutes<T(!new)>(xs: seq<T>, ys: seq<T>, keep: T -> bool)
    requires multiset(xs) == multiset(ys)
    ensures multiset(Filter(xs, keep)) == multiset(Filter(ys, keep))
  {
    forall x ensures multiset(Filter(xs, keep))[x] == multiset(Filter(ys, keep))[x] {
      FilterCount(xs, keep, x);
      FilterCount(ys, keep, x);
    }
  }

  lemma SameSingleton<T>(xs: seq<T>, ys: seq<T>)
    requires multiset(xs) == multiset(ys)
    ensures |xs| == |ys| && (|xs| <= 1 ==> xs == ys)
  {
    assert |xs| == |multiset(xs)| == |multiset(ys)| == |ys|;
    if |xs| == 1 {
      assert xs[0] in multiset(ys);
    }
  }

  lemma ResolvePermutes(request: Option<PublicRequest>, cs: seq<Contribution>, ds: seq<Contribution>)
    requires multiset(cs) == multiset(ds)
    ensures Resolve(request, cs) == Resolve(request, ds)
  {
    FilterPermutes(cs, ds, Responds);
    SameSingleton(Responding(cs), Responding(ds));
  }

  lemma {:induction false} NoErrorIffAllAdmitted(contract: Option<Contract>, cs: seq<Contribution>)
    ensures FirstError(contract, cs).None? <==> forall c :: c in cs ==> Admit(contract, c).None?
  {
    if cs != [] {
      NoErrorIffAllAdmitted(contract, cs[1..]);
      assert forall c :: c in cs <==> c == cs[0] || c in cs[1..];
    }
  }

  lemma SameOwnerNeighbours(cs: seq<Contribution>, i: nat, j: nat)
    requires SortedBy(cs, OwnerKey) && i < j < |cs|
    ensures OwnerKey(cs[i]) == OwnerKey(cs[j]) ==> cs[i].owner == cs[i + 1].owner
  {
    if OwnerKey(cs[i]) == OwnerKey(cs[j]) && i + 1 < j {
      assert KeyLeq(OwnerKey(cs[i]), OwnerKey(cs[i + 1])) && KeyLeq(OwnerKey(cs[i + 1]), OwnerKey(cs[j]));
      KeyTotal(OwnerKey(cs[i]), OwnerKey(cs[i + 1]));
    }
  }

  /** Neighbours with distinct owners in owner order means distinct owners throughout. */
  lemma OneEachIsDistinct(cs: seq<Contribution>)
    requires SortedBy(cs, OwnerKey)
    ensures OneEach(cs) <==> DistinctKeys(cs, OwnerKey)
  {
    forall i, j | 0 <= i < j < |cs| ensures OneEach(cs) ==> OwnerKey(cs[i]) != OwnerKey(cs[j]) {
      SameOwnerNeighbours(cs, i, j);
    }
    if DistinctKeys(cs, OwnerKey) {
      forall i | 0 <= i < |cs| - 1 ensures cs[i].owner != cs[i + 1].owner {
        assert OwnerKey(cs[i]) != OwnerKey(cs[i + 1]);
      }
    }
  }

  lemma AdmissionPermutes(contract: Option<Contract>, cs: seq<Contribution>, ds: seq<Contribution>)
    requires multiset(cs) == multiset(ds)
    ensures FirstError(contract, cs).None? <==> FirstError(contract, ds).None?
  {
    NoErrorIffAllAdmitted(contract, cs);
    NoErrorIffAllAdmitted(contract, ds);
    forall c ensures c in cs <==> c in ds {
      assert c in multiset(cs) <==> c in multiset(ds);
    }
  }

  lemma SourcesPermute(cs: seq<Contribution>, ds: seq<Contribution>)
    requires multiset(cs) == multiset(ds)
    ensures var xs, ys := SortBy(Relevant(cs), OwnerKey), SortBy(Relevant(ds), OwnerKey);
            (OneEach(xs) <==> OneEach(ys)) && (OneEach(xs) ==> xs == ys)
  {
    var xs, ys := SortBy(Relevant(cs), OwnerKey), SortBy(Relevant(ds), OwnerKey);
    FilterPermutes(cs, ds, IsRelevant);
    SortBySorts(Relevant(cs), OwnerKey);
    SortBySorts(Relevant(ds), OwnerKey);
    OneEachIsDistinct(xs);
    OneEachIsDistinct(ys);
    if OneEach(xs) {
      SortedOnce(xs, ys, OwnerKey);
    } else if OneEach(ys) {
      SortedOnce(ys, xs, OwnerKey);
    }
  }

  lemma ConcludePermutes(input: Input, cs: seq<Contribution>, ds: seq<Contribution>, resolution: Option<Response>)
    requires input.contract.Some? ==> WellFormed(input.contract.value)
    requires multiset(cs) == multiset(ds)
    ensures var xs, ys := SortBy(Relevant(cs), OwnerKey), SortBy(Relevant(ds), OwnerKey);
            Conclude(input.contract, input.intended, xs, resolution)
                == Conclude(input.contract, input.intended, ys, resolution)
  {
    SourcesPermute(cs, ds);
  }

  lemma ResolvedPermutes(input: Input, other: Input)
    requires other == input.(contributions := other.contributions)
    requires multiset(other.contributions) == multiset(input.contributions)
    ensures Resolved(input).Ok? <==> Resolved(other).Ok?
    ensures Resolved(input).Ok? ==> Resolved(input) == Resolved(other)
  {
    AdmissionPermutes(input.contract, input.contributions, other.contributions);
    ResolvePermutes(input.request, input.contributions, other.contributions);
  }

  /** A compilation succeeds for every order of the contributions or for none, and every
      successful one gives the same answer. */
  lemma OrderDoesNotMatter(input: Input, other: Input)
    requires input.contract.Some? ==> WellFormed(input.contract.value)
    requires other == input.(contributions := other.contributions)
    requires multiset(other.contributions) == multiset(input.contributions)
    ensures Compile(input).Ok? <==> Compile(other).Ok?
    ensures Compile(input).Ok? ==> Compile(input) == Compile(other)
  {
    ResolvedPermutes(input, other);
    if Resolved(input).Ok? {
      ConcludePermutes(input, input.contributions, other.contributions, Resolved(input).value);
    }
  }

  // ----- restrictions only restrict -----

  /** The same contribution with more restrictions. */
  ghost predicate Tightens(c: Contribution, d: Contribution) {
    && d.owner == c.owner && d.revision == c.revision && d.relevant == c.relevant
    && d.actions == c.actions && d.outcome == c.outcome
    && (forall b :: b in c.blockers ==> b in d.blockers)
    && (forall q :: q in c.questions ==> q in d.questions)
    && c.blocked <= d.blocked && d.allowed <= c.allowed
  }

  /** A contribution that offers, allows and concludes nothing. */
  ghost predicate RestrictionOnly(d: Contribution) {
    d.actions == [] && d.allowed == {} && d.outcome.None?
  }

  /** Every contribution is kept, maybe with more restrictions, and whatever is new only restricts. */
  ghost predicate AllTighten(cs: seq<Contribution>, ds: seq<Contribution>) {
    EachTightened(cs, ds) && EachTightens(cs, ds)
  }

  lemma SourcesMembers(input: Input, c: Contribution)
    ensures c in Sources(input) <==> c in input.contributions && c.relevant
  {
    SortBySorts(Relevant(input.contributions), OwnerKey);
    assert c in Sources(input) <==> c in multiset(Sources(input));
    assert c in Relevant(input.contributions) <==> c in multiset(Relevant(input.contributions));
  }

  ghost predicate EachTightened(cs: seq<Contribution>, ds: seq<Contribution>) {
    forall c :: c in cs ==> exists d :: d in ds && Tightens(c, d)
  }

  ghost predicate EachTightens(cs: seq<Contribution>, ds: seq<Contribution>) {
    forall d :: d in ds ==> RestrictionOnly(d) || exists c :: c in cs && Tightens(c, d)
  }

  lemma TightenedSources(input: Input, other: Input)
    requires AllTighten(input.contributions, other.contributions)
    ensures EachTightened(Sources(input), Sources(other)) && EachTightens(Sources(input), Sources(other))
  {
    forall c | c in Sources(input) ensures exists d :: d in Sources(other) && Tightens(c, d) {
      SourcesMembers(input, c);
      var d :| d in other.contributions && Tightens(c, d);
      SourcesMembers(other, d);
    }
    forall d | d in Sources(other) && !RestrictionOnly(d) ensures exists c :: c in Sources(input) && Tightens(c, d) {
      SourcesMembers(other, d);
      var c :| c in input.contributions && Tightens(c, d);
      SourcesMembers(input, c);
    }
  }

  lemma ConstraintsGrow(cs: seq<Contribution>, ds: seq<Contribution>)
    requires EachTightened(cs, ds)
    ensures Constrained(cs) <= Constrained(ds)
  {
    forall s | s in Constrained(cs) ensures s in Constrained(ds) {
      var c :| c in cs && s in Affects(c);
      var d :| d in ds && Tightens(c, d);
      assert s in Affects(d);
    }
  }

  lemma BlockedGrow(cs: seq<Contribution>, ds: seq<Contribution>)
    requires EachTightened(cs, ds)
    ensures BlockedClaims(cs) <= BlockedClaims(ds)
  {
    forall claim | claim in BlockedClaims(cs) ensures claim in BlockedClaims(ds) {
      var c :| c in cs && claim in c.blocked;
      var d :| d in ds && Tightens(c, d);
      assert claim in d.blocked;
    }
  }

  lemma AllowedShrink(cs: seq<Contribution>, ds: seq<Contribution>)
    requires EachTightens(cs, ds) && BlockedClaims(cs) <= BlockedClaims(ds)
    ensures AllowedClaims(ds) <= AllowedClaims(cs)
  {
    forall claim | claim in AllowedClaims(ds) ensures claim in AllowedClaims(cs) {
      var d :| d in ds && claim in d.allowed && claim !in BlockedClaims(ds);
      var c :| c in cs && Tightens(c, d);
      assert claim in c.allowed && claim !in BlockedClaims(cs);
    }
  }

  lemma {:induction false} GatherMembers<T>(cs: seq<Contribution>, parts: Contribution -> seq<T>, x: T)
    ensures x in Gather(cs, parts) <==> exists c :: c in cs && x in parts(c)
  {
    if cs != [] {
      GatherMembers(cs[1..], parts, x);
      assert forall c :: c in cs <==> c == cs[0] || c in cs[1..];
    }
  }

  /** The actions no restriction holds back. */
  function AvailableActions(input: Input): seq<OwnedAction> {
    Filter(SortBy(Gather(Sources(input), ActionsOf), ActionKey), AvailableIn(Constrained(Sources(input))))
  }

  lemma AvailableMembers(input: Input, a: OwnedAction)
    ensures a in AvailableActions(input) <==>
            Available(Constrained(Sources(input)), a)
            && exists c :: c in Sources(input) && c.owner == a.owner && a.action in c.actions
  {
    var actions := Gather(Sources(input), ActionsOf);
    SortBySorts(actions, ActionKey);
    assert a in SortBy(actions, ActionKey) <==> a in multiset(SortBy(actions, ActionKey));
    assert a in actions <==> a in multiset(actions);
    GatherMembers(Sources(input), ActionsOf, a);
    forall c ensures a in ActionsOf(c) <==> c.owner == a.owner && a.action in c.actions {
      if c.owner == a.owner && a.action in c.actions {
        var k :| 0 <= k < |c.actions| && c.actions[k] == a.action;
        assert ActionsOf(c)[k] == a;
      }
    }
  }

  lemma {:induction false} FindMember(cs: seq<Contribution>, owner: string)
    ensures Find(cs, owner).None? <==> forall c :: c in cs ==> c.owner != owner
    ensures Find(cs, owner).Some? ==> Find(cs, owner).value in cs && Find(cs, owner).value.owner == owner
  {
    if cs != [] {
      FindMember(cs[1..], owner);
      assert forall x :: x in cs <==> x == cs[0] || x in cs[1..];
    }
  }

  /** The one source of an owner, in a compilation that succeeded. */
  lemma FindIsUnique(cs: seq<Contribution>, c: Contribution)
    requires SortedBy(cs, OwnerKey) && OneEach(cs) && c in cs
    ensures Find(cs, c.owner) == Some(c)
  {
    FindMember(cs, c.owner);
    OneEachIsDistinct(cs);
    var found := Find(cs, c.owner).value;
    var i :| 0 <= i < |cs| && cs[i] == c;
    var j :| 0 <= j < |cs| && cs[j] == found;
    assert i != j ==> OwnerKey(cs[i]) != OwnerKey(cs[j]);
  }

  lemma AvailableShrinks(input: Input, other: Input, a: OwnedAction)
    requires EachTightens(Sources(input), Sources(other)) && Constrained(Sources(input)) <= Constrained(Sources(other))
    requires a in AvailableActions(other)
    ensures a in AvailableActions(input)
  {
    AvailableMembers(other, a);
    AvailableMembers(input, a);
    var d :| d in Sources(other) && d.owner == a.owner && a.action in d.actions;
    var c :| c in Sources(input) && Tightens(c, d);
  }

  lemma TerminalShrinks(intended: Option<Intended>, cs: seq<Contribution>, ds: seq<Contribution>)
    requires EachTightens(cs, ds) && SortedBy(cs, OwnerKey) && OneEach(cs)
    requires Constrained(cs) <= Constrained(ds) && BlockedClaims(cs) <= BlockedClaims(ds)
    requires AllowedClaims(ds) <= AllowedClaims(cs)
    requires TerminalAuthority(intended, ds).Some?
    ensures TerminalAuthority(intended, cs) == TerminalAuthority(intended, ds)
  {
    FindMember(ds, intended.value.owner);
    var d := Find(ds, intended.value.owner).value;
    var c :| c in cs && Tightens(c, d);
    FindIsUnique(cs, c);
  }

  lemma AvailableAllShrink(input: Input, other: Input)
    requires EachTightens(Sources(input), Sources(other)) && Constrained(Sources(input)) <= Constrained(Sources(other))
    ensures forall a :: a in AvailableActions(other) ==> a in AvailableActions(input)
  {
    forall a | a in AvailableActions(other) ensures a in AvailableActions(input) {
      AvailableShrinks(input, other, a);
    }
  }

  /** What a successful compilation says about claims and authority. */
  lemma CompiledParts(input: Input, answer: Answer)
    requires input.contract.Some? ==> WellFormed(input.contract.value)
    requires Compile(input) == Ok(answer)
    ensures SortedBy(Sources(input), OwnerKey) && OneEach(Sources(input))
    ensures answer.allowed == AllowedClaims(Sources(input)) && answer.blocked == BlockedClaims(Sources(input))
    ensures answer.terminal == TerminalAuthority(input.intended, Sources(input))
  {
    SortBySorts(Relevant(input.contributions), OwnerKey);
  }

  /** Adding blockers, questions or blocked claims never makes an action available, never
      allows a claim, and never creates terminal authority or changes which there is. */
  lemma RestrictionsOnlyRestrict(input: Input, other: Input, answer: Answer, answer': Answer)
    requires input.contract.Some? ==> WellFormed(input.contract.value)
    requires other.contract == input.contract && other.intended == input.intended
    requires AllTighten(input.contributions, other.contributions)
    requires Compile(input) == Ok(answer) && Compile(other) == Ok(answer')
    ensures forall a :: a in AvailableActions(other) ==> a in AvailableActions(input)
    ensures answer'.allowed <= answer.allowed && answer.blocked <= answer'.blocked
    ensures answer'.terminal.Some? ==> answer'.terminal == answer.terminal
  {
    TightenedSources(input, other);
    ConstraintsGrow(Sources(input), Sources(other));
    BlockedGrow(Sources(input), Sources(other));
    AllowedShrink(Sources(input), Sources(other));
    AvailableAllShrink(input, other);
    CompiledParts(input, answer);
    CompiledParts(other, answer');
    if answer'.terminal.Some? {
      TerminalShrinks(input.intended, Sources(input), Sources(other));
    }
  }

  /** Offered actions leave no room for a task-wide blocker or question, a composition
      blocker or a decision request; each offered action is available. */
  lemma ReadyExcludes(input: Input, answer: Answer)
    requires input.contract.Some? ==> WellFormed(input.contract.value)
    requires Compile(input) == Ok(answer) && answer.ready != []
    ensures forall b :: b in answer.blockers ==> TASK !in b.affects
    ensures forall q :: q in answer.questions ==> TASK !in q.affects
    ensures answer.composition == Settled && answer.request.None?
    ensures answer.ready == AvailableActions(input)
  {
    var cs := Sources(input);
    assert answer.ready[0] in answer.ready;
    assert TASK !in Constrained(cs);
    forall b | b in answer.blockers ensures TASK !in b.affects {
      GatherMembers(cs, BlockersOf, b);
      var c :| c in cs && b in BlockersOf(c);
      assert TASK in b.affects ==> TASK in Affects(c);
    }
    SortBySorts(Gather(cs, QuestionsOf), QuestionKey);
    forall q | q in answer.questions ensures TASK !in q.affects {
      assert q in multiset(answer.questions);
      assert q in Gather(cs, QuestionsOf);
      GatherMembers(cs, QuestionsOf, q);
      var c :| c in cs && q in QuestionsOf(c);
      assert TASK in q.affects ==> TASK in Affects(c);
    }
    FilterNone(answer.questions, HoldsAll);
  }
}
