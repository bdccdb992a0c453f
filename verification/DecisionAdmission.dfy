/** When a compilation succeeds, and what admission guarantees (src/core/src/lib.rs,
    `normalize_contribution`, `compile`), said of the fields of the contract and the contributions. */
module DecisionAdmission {
  import opened Wrappers
  import opened Ordering
  import opened Decision
  import opened DecisionLaws
  import opened DecisionMeaning

  /** The contribution offers, restricts, allows, blocks, concludes or answers something. */
  ghost predicate Gives(c: Contribution) {
    || |c.actions| > 0 || |c.blockers| > 0 || |c.questions| > 0
    || (exists claim :: claim in c.allowed) || (exists claim :: claim in c.blocked)
    || c.outcome != None || c.response != None
  }

  /** The contract makes this owner the authority for the claim. */
  ghost predicate OwnsClaim(contract: Contract, owner: string, claim: string) {
    claim in contract.claimAuthorities && contract.claimAuthorities[claim] == owner
  }

  /** An owner may restrict its own attestation, and what the contract grants it. */
  ghost predicate MayRestrict(contract: Contract, owner: string, scope: string) {
    scope == "attestation:" + owner || (owner in contract.restrictions && scope in contract.restrictions[owner])
  }

  /** The owner declares the action's operation and its effects stay within the declared ones. */
  ghost predicate Declared(contract: Contract, a: OwnedAction) {
    && a.owner in contract.owners && a.action.operation in contract.owners[a.owner].operations
    && a.action.authority == a.owner
    && a.action.effects <= contract.owners[a.owner].operations[a.action.operation].effects
  }

  ghost predicate Admitted(contract: Contract, c: Contribution) {
    && c.owner in contract.owners
    && (forall a :: a in c.actions ==> Declared(contract, OwnedAction(c.owner, a)))
    && (forall claim :: claim in c.allowed ==> OwnsClaim(contract, c.owner, claim))
    && (forall scope :: Touches(c, scope) ==> MayRestrict(contract, c.owner, scope))
    && (forall claim :: claim in c.blocked ==> MayRestrict(contract, c.owner, "claim:" + claim))
    && (c.outcome.Some? ==> OwnsClaim(contract, c.owner, c.outcome.value.claim)
                            && forall claim :: claim in c.outcome.value.required ==> claim in contract.claimAuthorities)
  }

  lemma GivesMeans(c: Contribution)
    ensures BearsAuthority(c) <==> Gives(c)
  {
    assert c.allowed != {} ==> exists claim :: claim in c.allowed;
    assert c.blocked != {} ==> exists claim :: claim in c.blocked;
  }

  lemma AffectsMean(c: Contribution, scope: string)
    ensures scope in Affects(c) <==> Touches(c, scope)
  {
  }

  /** A contribution passes exactly when it gives nothing, or its owner is declared and entitled to
      everything it gives. */
  lemma AdmitExactly(contract: Option<Contract>, c: Contribution)
    ensures Admit(contract, c).None? <==> (Gives(c) ==> contract.Some? && Admitted(contract.value, c))
  {
    GivesMeans(c);
    if contract.Some? {
      forall scope ensures scope in Affects(c) <==> Touches(c, scope) {
        AffectsMean(c, scope);
      }
      if c.owner in contract.value.owners {
        AdmitDeclared(contract.value, c);
      }
    }
  }

  lemma AdmitDeclared(contract: Contract, c: Contribution)
    requires c.owner in contract.owners
    requires forall scope :: scope in Affects(c) <==> Touches(c, scope)
    ensures Admit(Some(contract), c).None? <==> Admitted(contract, c)
  {
    ActionsAreChecked(contract, c);
  }

  lemma ActionsAreChecked(contract: Contract, c: Contribution)
    requires c.owner in contract.owners
    ensures (forall a :: a in c.actions ==> Declared(contract, OwnedAction(c.owner, a))) <==>
      && (forall a :: a in c.actions ==> a.operation in contract.owners[c.owner].operations)
      && (forall a :: a in c.actions ==> a.authority == c.owner)
      && forall a :: a in c.actions && a.operation in contract.owners[c.owner].operations ==>
           a.effects <= contract.owners[c.owner].operations[a.operation].effects
  {
  }

  /** Everything a decision rests on was its owner's to give: offered and pending actions are
      declared and within their effect ceiling, allowed claims come from their authority,
      restrictions from owners who may impose them, and terminal authority from the claim's own. */
  lemma AnswerIsAuthorized(input: Input, answer: Answer)
    requires input.contract.Some? ==> WellFormed(input.contract.value)
    requires Compile(input) == Ok(answer)
    ensures forall a :: a in answer.actions || a in answer.ready ==>
      input.contract.Some? && Declared(input.contract.value, a)
    ensures forall claim :: claim in answer.allowed ==>
      input.contract.Some? && exists c :: Current(input, c) && OwnsClaim(input.contract.value, c.owner, claim)
    ensures forall c, scope :: Current(input, c) && Touches(c, scope) ==>
      input.contract.Some? && MayRestrict(input.contract.value, c.owner, scope)
    ensures forall c, claim :: Current(input, c) && claim in c.blocked ==>
      input.contract.Some? && MayRestrict(input.contract.value, c.owner, "claim:" + claim)
    ensures answer.terminal.Some? ==>
      input.contract.Some?
      && OwnsClaim(input.contract.value, answer.terminal.value.owner, answer.terminal.value.outcome.claim)
  {
    NoErrorIffAllAdmitted(input.contract, input.contributions);
    forall c | Current(input, c) && Gives(c)
      ensures input.contract.Some? && Admitted(input.contract.value, c)
    {
      AdmitExactly(input.contract, c);
    }
    ActionsAreDeclared(input, answer);
    forall claim | claim in answer.allowed
      ensures input.contract.Some? && exists c :: Current(input, c) && OwnsClaim(input.contract.value, c.owner, claim)
    {
      ClaimsExactly(input, answer, claim);
      var c :| Current(input, c) && claim in c.allowed;
      assert Gives(c);
    }
    forall c, scope | Current(input, c) && Touches(c, scope)
      ensures input.contract.Some? && MayRestrict(input.contract.value, c.owner, scope)
    {
      assert Gives(c);
    }
    if answer.terminal.Some? {
      TerminalExactly(input, answer);
      var c :| Concludes(input, c);
      assert Gives(c);
    }
  }

  lemma SortedMembers<T>(xs: seq<T>, ys: seq<T>, x: T)
    requires multiset(xs) == multiset(ys)
    ensures x in xs <==> x in ys
  {
    assert x in multiset(xs) <==> x in multiset(ys);
  }

  lemma GatheredIsDeclared(input: Input, a: OwnedAction)
    requires forall c :: Current(input, c) && Gives(c) ==>
      input.contract.Some? && Admitted(input.contract.value, c)
    requires a in Gather(Sources(input), ActionsOf)
    ensures input.contract.Some? && Declared(input.contract.value, a)
  {
    GatherMembers(Sources(input), ActionsOf, a);
    var c :| c in Sources(input) && a in ActionsOf(c);
    SourcesMembers(input, c);
    ActionsOfMeans(c, a);
    assert Gives(c);
  }

  lemma ActionsAreGathered(input: Input, answer: Answer)
    requires input.contract.Some? ==> WellFormed(input.contract.value)
    requires Compile(input) == Ok(answer)
    ensures answer.actions == SortBy(Gather(Sources(input), ActionsOf), ActionKey)
    ensures forall a :: a in answer.ready ==> a in answer.actions
  {
  }

  lemma ActionsAreDeclared(input: Input, answer: Answer)
    requires input.contract.Some? ==> WellFormed(input.contract.value)
    requires Compile(input) == Ok(answer)
    requires forall c :: Current(input, c) && Gives(c) ==>
      input.contract.Some? && Admitted(input.contract.value, c)
    ensures forall a :: a in answer.actions || a in answer.ready ==>
      input.contract.Some? && Declared(input.contract.value, a)
  {
    var gathered := Gather(Sources(input), ActionsOf);
    ActionsAreGathered(input, answer);
    SortBySorts(gathered, ActionKey);
    forall a | a in answer.actions ensures input.contract.Some? && Declared(input.contract.value, a) {
      SortedMembers(gathered, answer.actions, a);
      GatheredIsDeclared(input, a);
    }
  }

  // ----- when a compilation succeeds -----

  ghost predicate DistinctOwners(cs: seq<Contribution>) {
    forall i, j :: 0 <= i < j < |cs| && cs[i].relevant && cs[j].relevant ==> cs[i].owner != cs[j].owner
  }

  lemma {:induction false} FilterDistinct(cs: seq<Contribution>)
    ensures DistinctOwners(cs) <==> DistinctKeys(Relevant(cs), OwnerKey)
  {
    if cs != [] {
      var rest := cs[1..];
      FilterDistinct(rest);
      assert forall i :: 0 <= i < |rest| ==> rest[i] == cs[i + 1];
      FirstOwner(cs);
      if cs[0].relevant {
        FirstKey(cs[0], Relevant(rest));
        assert Relevant(cs) == [cs[0]] + Relevant(rest);
      } else {
        assert Relevant(cs) == Relevant(rest);
      }
    }
  }

  lemma FirstOwner(cs: seq<Contribution>)
    requires cs != []
    ensures DistinctOwners(cs) <==>
      DistinctOwners(cs[1..]) && (cs[0].relevant ==> forall c :: c in Relevant(cs[1..]) ==> c.owner != cs[0].owner)
  {
    var rest := cs[1..];
    assert forall i :: 0 <= i < |rest| ==> rest[i] == cs[i + 1];
    if DistinctOwners(rest) && (cs[0].relevant ==> forall c :: c in Relevant(rest) ==> c.owner != cs[0].owner) {
      forall i, j | 0 <= i < j < |cs| && cs[i].relevant && cs[j].relevant ensures cs[i].owner != cs[j].owner {
        assert cs[j] == rest[j - 1] && rest[j - 1] in Relevant(rest);
        assert i > 0 ==> cs[i] == rest[i - 1];
      }
    }
  }

  lemma FirstKey(c: Contribution, cs: seq<Contribution>)
    ensures DistinctKeys([c] + cs, OwnerKey) <==>
      DistinctKeys(cs, OwnerKey) && forall d :: d in cs ==> d.owner != c.owner
  {
    if DistinctKeys([c] + cs, OwnerKey) {
      FirstKeyIsNew(c, cs);
    }
    if DistinctKeys(cs, OwnerKey) && forall d :: d in cs ==> d.owner != c.owner {
      var all := [c] + cs;
      forall i, j | 0 <= i < j < |all| ensures OwnerKey(all[i]) != OwnerKey(all[j]) {
        assert all[j] == cs[j - 1] && all[j] in cs;
        assert i > 0 ==> all[i] == cs[i - 1];
      }
    }
  }

  lemma FirstKeyIsNew(c: Contribution, cs: seq<Contribution>)
    requires DistinctKeys([c] + cs, OwnerKey)
    ensures DistinctKeys(cs, OwnerKey) && forall d :: d in cs ==> d.owner != c.owner
  {
    var all := [c] + cs;
    forall d | d in cs ensures d.owner != c.owner {
      var i :| 0 <= i < |cs| && cs[i] == d;
      assert all[i + 1] == d && OwnerKey(all[0]) != OwnerKey(all[i + 1]);
    }
    forall i, j | 0 <= i < j < |cs| ensures OwnerKey(cs[i]) != OwnerKey(cs[j]) {
      assert all[i + 1] == cs[i] && all[j + 1] == cs[j] && OwnerKey(all[i + 1]) != OwnerKey(all[j + 1]);
    }
  }

  lemma DistinctDoesNotRepeat<T>(xs: seq<T>, key: T -> Key, x: T)
    requires DistinctKeys(xs, key)
    ensures !Repeats(xs, x)
  {
    assert forall p, q :: 0 <= p < q < |xs| ==> key(xs[p]) != key(xs[q]);
  }

  lemma DistinctPermutes<T(!new)>(xs: seq<T>, ys: seq<T>, key: T -> Key)
    requires multiset(xs) == multiset(ys) && DistinctKeys(xs, key)
    ensures DistinctKeys(ys, key)
  {
    forall x ensures !Repeats(ys, x) {
      DistinctDoesNotRepeat(xs, key, x);
      RepeatsCount(xs, x);
      RepeatsCount(ys, x);
    }
    forall i, j | 0 <= i < j < |ys| ensures key(ys[i]) != key(ys[j]) {
      assert ys[i] in multiset(xs) && ys[j] in multiset(xs);
      assert ys[i] == ys[j] ==> Repeats(ys, ys[i]);
      var p :| 0 <= p < |xs| && xs[p] == ys[i];
      var q :| 0 <= q < |xs| && xs[q] == ys[j];
      assert p < q ==> key(xs[p]) != key(xs[q]);
      assert q < p ==> key(xs[q]) != key(xs[p]);
    }
  }

  lemma OneEachMeans(input: Input)
    ensures OneEach(Sources(input)) <==> DistinctOwners(input.contributions)
  {
    var found := Relevant(input.contributions);
    FilterDistinct(input.contributions);
    SortBySorts(found, OwnerKey);
    OneEachIsDistinct(Sources(input));
    if DistinctKeys(found, OwnerKey) {
      DistinctPermutes(found, Sources(input), OwnerKey);
    } else if DistinctKeys(Sources(input), OwnerKey) {
      DistinctPermutes(Sources(input), found, OwnerKey);
    }
  }

  /** A compilation succeeds exactly when the intended outcome's owner owns its claim, every
      contribution is entitled to what it gives, the public request has its one answer or nobody
      responds without one, and no two current contributions share an owner. */
  lemma CompileSucceedsExactly(input: Input)
    requires input.contract.Some? ==> WellFormed(input.contract.value)
    ensures Compile(input).Ok? <==>
      && (input.intended.Some? ==>
            input.contract.Some? && OwnsClaim(input.contract.value, input.intended.value.owner,
                                              input.intended.value.claim))
      && (forall c :: c in input.contributions && Gives(c) ==>
            input.contract.Some? && Admitted(input.contract.value, c))
      && (input.request.None? ==> forall c :: c in input.contributions ==> c.response.None?)
      && (input.request.Some? ==> exists i, r :: Answers(input.contributions, i, input.request.value, r))
      && DistinctOwners(input.contributions)
  {
    var cs := input.contributions;
    NoErrorIffAllAdmitted(input.contract, cs);
    forall c ensures Admit(input.contract, c).None? <==>
        (Gives(c) ==> input.contract.Some? && Admitted(input.contract.value, c)) {
      AdmitExactly(input.contract, c);
    }
    RequestResolves(input.request, cs);
    OneEachMeans(input);
    CompileInSteps(input);
  }

  lemma CompileInSteps(input: Input)
    requires input.contract.Some? ==> WellFormed(input.contract.value)
    ensures Compile(input).Ok? <==>
      && (input.intended.Some? ==>
            input.contract.Some? && OwnsClaim(input.contract.value, input.intended.value.owner,
                                              input.intended.value.claim))
      && FirstError(input.contract, input.contributions).None?
      && Resolve(input.request, input.contributions).Ok? && OneEach(Sources(input))
  {
  }

  lemma RequestResolves(request: Option<PublicRequest>, cs: seq<Contribution>)
    ensures Resolve(request, cs).Ok? <==>
      && (request.None? ==> forall c :: c in cs ==> c.response.None?)
      && (request.Some? ==> exists i, r :: Answers(cs, i, request.value, r))
  {
    ResolveExactly(request, cs);
    if request.None? {
      assert forall j :: 0 <= j < |cs| ==> cs[j] in cs;
    } else {
      if i, r :| Answers(cs, i, request.value, r) {
        assert Resolve(request, cs) == Ok(Some(r));
      }
      if Resolve(request, cs).Ok? {
        var r := Resolve(request, cs).value.value;
        assert Resolve(request, cs) == Ok(Some(r));
      }
    }
  }
}
