/** Exact comparison of dependency observations (src/core/src/dependency_binding.rs, `compare`). */
module Dependency {
  import opened Wrappers

  datatype Scheme = RawBytes | UniversalNewlineUtf8

  datatype Currentness = Current | Changed | Missing | Unavailable | Unassessed

  datatype Observation = Observation(identity: string, scheme: Scheme, revision: Option<string>, status: Currentness)

  datatype Basis<C> = Basis(conclusion: C, dependencies: seq<Observation>)

  datatype Comparison = Comparison(status: Currentness, changed: seq<string>, membershipChanged: bool)

  function Identities(observations: seq<Observation>): (ids: seq<string>)
    ensures |ids| == |observations| && forall k :: 0 <= k < |ids| ==> ids[k] == observations[k].identity
  {
    seq(|observations|, k requires 0 <= k < |observations| => observations[k].identity)
  }

  predicate Distinct(observations: seq<Observation>) {
    forall i, j :: 0 <= i < j < |observations| ==> observations[i].identity != observations[j].identity
  }

  /** The two bases are the same, and their observations are current and told apart by identity. */
  ghost predicate Same<C>(current: Basis<C>, accepted: Basis<C>) {
    && current == accepted && Distinct(current.dependencies)
    && forall o :: o in current.dependencies ==> o.status == Current
  }

  /** The current side could not be observed. */
  ghost predicate Lost(o: Observation) {
    o.status == Missing || o.status == Unavailable
  }

  /** Of the first `n` observations, number `k` is the last lost one. */
  ghost predicate LastLost(observations: seq<Observation>, n: int, k: int) {
    0 <= k < n <= |observations| && Lost(observations[k]) && forall j :: k < j < n ==> !Lost(observations[j])
  }

  /** Observation `o` is current and is the only accepted one of its identity. */
  ghost predicate Confirmed(o: Observation, accepted: seq<Observation>) {
    o.status == Current && exists k :: OnlyOne(accepted, o, k)
  }

  predicate OnlyOne(accepted: seq<Observation>, o: Observation, k: int) {
    && 0 <= k < |accepted| && accepted[k] == o
    && forall j :: 0 <= j < |accepted| && j != k ==> accepted[j].identity != o.identity
  }

  ghost predicate Differs(current: seq<Observation>, accepted: seq<Observation>, identity: string) {
    || (exists o :: o in current && o.identity == identity && !Confirmed(o, accepted))
    || (exists o :: o in accepted && o.identity == identity && identity !in Identities(current))
  }

  /** The identities of the first `n` observations that satisfy `p`, in order. */
  ghost function Select(observations: seq<Observation>, n: nat, p: Observation -> bool): seq<string>
    requires n <= |observations|
  {
    if n == 0 then []
    else Select(observations, n - 1, p) + if p(observations[n - 1]) then [observations[n - 1].identity] else []
  }

  lemma {:induction false} SelectHolds(observations: seq<Observation>, n: nat, p: Observation -> bool, identity: string)
    requires n <= |observations|
    ensures identity in Select(observations, n, p) <==>
      exists i :: 0 <= i < n && observations[i].identity == identity && p(observations[i])
  {
    if n > 0 {
      SelectHolds(observations, n - 1, p, identity);
    }
  }

  lemma {:induction false} SelectNone(observations: seq<Observation>, n: nat, p: Observation -> bool)
    requires n <= |observations| && forall i :: 0 <= i < n ==> !p(observations[i])
    ensures Select(observations, n, p) == []
  {
    if n > 0 {
      SelectNone(observations, n - 1, p);
    }
  }

  ghost function Unconfirmed(accepted: seq<Observation>): Observation -> bool {
    (o: Observation) => !Confirmed(o, accepted)
  }

  ghost function AbsentFrom(current: seq<Observation>): Observation -> bool {
    (o: Observation) => o.identity !in Identities(current)
  }

  method IsConfirmed(o: Observation, accepted: seq<Observation>) returns (confirmed: bool)
    ensures confirmed <==> Confirmed(o, accepted)
  {
    var matching: seq<Observation> := [];
    ghost var at := -1;
    for k := 0 to |accepted|
      invariant |matching| == 0 <==> forall j :: 0 <= j < k ==> accepted[j].identity != o.identity
      invariant |matching| > 0 ==> 0 <= at < k && accepted[at].identity == o.identity
      invariant |matching| == 1 ==> matching[0] == accepted[at] && forall j :: 0 <= j < k && j != at ==>
        accepted[j].identity != o.identity
      invariant |matching| > 1 ==> exists j :: 0 <= j < at && accepted[j].identity == o.identity
    {
      if accepted[k].identity == o.identity {
        matching := matching + [accepted[k]];
        at := k;
      }
    }
    confirmed := o.status == Current && |matching| == 1 && matching[0] == o;
    if confirmed {
      assert OnlyOne(accepted, o, at);
    }
  }

  /** The status after the first `n` observations. */
  ghost predicate StatusSoFar(current: seq<Observation>, accepted: seq<Observation>, n: nat, status: Currentness)
    requires n <= |current|
  {
    && (status == Current <==> forall i :: 0 <= i < n ==> Confirmed(current[i], accepted))
    && status != Unassessed
    && (status in {Missing, Unavailable} <==> exists i :: 0 <= i < n && Lost(current[i]))
    && (forall i :: LastLost(current, n, i) ==> status == current[i].status)
  }

  function NextStatus(status: Currentness, o: Observation): Currentness {
    if o.status == Missing || o.status == Unavailable then o.status else if status == Current then Changed else status
  }

  lemma NextSoFar(current: seq<Observation>, accepted: seq<Observation>, n: nat, status: Currentness)
    requires n < |current| && StatusSoFar(current, accepted, n, status)
    ensures StatusSoFar(current, accepted, n + 1,
      if Confirmed(current[n], accepted) then status else NextStatus(status, current[n]))
  {
    assert forall i :: LastLost(current, n + 1, i) ==> i == n || LastLost(current, n, i);
    var next := if Confirmed(current[n], accepted) then status else NextStatus(status, current[n]);
    if Lost(current[n]) {
      assert next == current[n].status;
    }
  }

  lemma NothingScanned(current: seq<Observation>, accepted: seq<Observation>)
    ensures StatusSoFar(current, accepted, 0, Current) && Select(current, 0, Unconfirmed(accepted)) == []
  {
  }

  lemma SelectNext(current: seq<Observation>, accepted: seq<Observation>, n: nat)
    requires n < |current|
    ensures Select(current, n + 1, Unconfirmed(accepted))
         == Select(current, n, Unconfirmed(accepted))
            + if Confirmed(current[n], accepted) then [] else [current[n].identity]
  {
  }

  method Scan(current: seq<Observation>, accepted: seq<Observation>) returns (status: Currentness, changed: seq<string>)
    ensures StatusSoFar(current, accepted, |current|, status)
    ensures changed == Select(current, |current|, Unconfirmed(accepted))
  {
    status, changed := Current, [];
    NothingScanned(current, accepted);
    for n := 0 to |current|
      invariant StatusSoFar(current, accepted, n, status)
      invariant changed == Select(current, n, Unconfirmed(accepted))
    {
      status, changed := ScanOne(current, accepted, n, status, changed);
    }
  }

  method ScanOne(current: seq<Observation>, accepted: seq<Observation>, n: nat, status: Currentness,
                 changed: seq<string>)
    returns (status': Currentness, changed': seq<string>)
    requires n < |current| && StatusSoFar(current, accepted, n, status)
    requires changed == Select(current, n, Unconfirmed(accepted))
    ensures StatusSoFar(current, accepted, n + 1, status')
    ensures changed' == Select(current, n + 1, Unconfirmed(accepted))
  {
    NextSoFar(current, accepted, n, status);
    SelectNext(current, accepted, n);
    var confirmed := IsConfirmed(current[n], accepted);
    if confirmed {
      return status, changed;
    }
    changed' := changed + [current[n].identity];
    status' := NextStatus(status, current[n]);
  }

  method Gone(current: seq<Observation>, accepted: seq<Observation>) returns (gone: seq<string>)
    ensures gone == Select(accepted, |accepted|, AbsentFrom(current))
  {
    gone := [];
    for n := 0 to |accepted|
      invariant gone == Select(accepted, n, AbsentFrom(current))
    {
      if accepted[n].identity !in Identities(current) {
        gone := gone + [accepted[n].identity];
      }
    }
  }

  lemma SameIffConfirmed<C>(current: Basis<C>, accepted: Basis<C>)
    requires current.conclusion == accepted.conclusion
    requires Identities(current.dependencies) == Identities(accepted.dependencies)
    ensures Same(current, accepted) <==> forall o :: o in current.dependencies ==> Confirmed(o, accepted.dependencies)
  {
    var c, a := current.dependencies, accepted.dependencies;
    assert |c| == |Identities(c)| == |a|;
    if forall o :: o in c ==> Confirmed(o, a) {
      forall i | 0 <= i < |c| ensures a[i] == c[i] && OnlyOne(a, c[i], i) {
        assert c[i] in c;
        var k :| OnlyOne(a, c[i], k);
        assert Identities(a)[i] == c[i].identity;
      }
      assert c == a;
    }
    if Same(current, accepted) {
      forall o | o in c ensures Confirmed(o, a) {
        var i :| 0 <= i < |c| && c[i] == o;
        assert OnlyOne(a, o, i);
      }
    }
  }

  lemma ChangedDiffers(current: seq<Observation>, accepted: seq<Observation>, identity: string)
    ensures identity in Select(current, |current|, Unconfirmed(accepted))
      + Select(accepted, |accepted|, AbsentFrom(current))
      <==> Differs(current, accepted, identity)
  {
    SelectHolds(current, |current|, Unconfirmed(accepted), identity);
    SelectHolds(accepted, |accepted|, AbsentFrom(current), identity);
  }

  /** With the same identities and every observation confirmed, nothing is gone. */
  lemma NothingGone(current: seq<Observation>, accepted: seq<Observation>)
    requires Identities(current) == Identities(accepted)
    ensures Select(accepted, |accepted|, AbsentFrom(current)) == []
  {
    assert forall i :: 0 <= i < |accepted| ==> Identities(accepted)[i] in Identities(current);
    SelectNone(accepted, |accepted|, AbsentFrom(current));
  }

  lemma NothingChanged(current: seq<Observation>, accepted: seq<Observation>)
    ensures Select(current, |current|, Unconfirmed(accepted)) == [] <==>
      forall i :: 0 <= i < |current| ==> Confirmed(current[i], accepted)
  {
    var changed := Select(current, |current|, Unconfirmed(accepted));
    forall i | 0 <= i < |current| && !Confirmed(current[i], accepted) ensures changed != [] {
      SelectHolds(current, |current|, Unconfirmed(accepted), current[i].identity);
    }
    if changed != [] {
      SelectHolds(current, |current|, Unconfirmed(accepted), changed[0]);
    }
  }

  /** The status the scan may keep as current. */
  lemma CurrentMeansSame<C>(current: Basis<C>, accepted: Basis<C>)
    ensures Same(current, accepted) <==>
      && (forall i :: 0 <= i < |current.dependencies| ==> Confirmed(current.dependencies[i], accepted.dependencies))
      && Identities(current.dependencies) == Identities(accepted.dependencies)
      && current.conclusion == accepted.conclusion
  {
    if current.conclusion == accepted.conclusion
        && Identities(current.dependencies) == Identities(accepted.dependencies) {
      SameIffConfirmed(current, accepted);
    }
  }

  /** Nothing accepted is unassessed. Otherwise the last missing or unavailable observation
      decides; without one the answer is current exactly for the same basis. */
  method Compare<C(==)>(current: Basis<C>, accepted: Option<Basis<C>>) returns (r: Comparison)
    ensures accepted.None? ==> r == Comparison(Unassessed, Identities(current.dependencies), true)
    ensures accepted.Some? ==>
      && r.status != Unassessed
      && (r.status == Current <==> Same(current, accepted.value))
      && (r.status in {Missing, Unavailable} <==> exists o :: o in current.dependencies && Lost(o))
      && (forall k :: LastLost(current.dependencies, |current.dependencies|, k) ==>
          r.status == current.dependencies[k].status)
      && r.changed == Select(current.dependencies, |current.dependencies|, Unconfirmed(accepted.value.dependencies))
                      + Select(accepted.value.dependencies, |accepted.value.dependencies|,
                               AbsentFrom(current.dependencies))
      && (r.membershipChanged <==> Identities(current.dependencies) != Identities(accepted.value.dependencies))
  {
    if accepted.None? {
      return Comparison(Unassessed, Identities(current.dependencies), true);
    }
    var c, a := current.dependencies, accepted.value.dependencies;
    var status, changed := Scan(c, a);
    var gone := Gone(c, a);
    changed := changed + gone;
    var membershipChanged := |c| != |a| || Identities(c) != Identities(a);
    CurrentMeansSame(current, accepted.value);
    NothingChanged(c, a);
    if !membershipChanged {
      NothingGone(c, a);
    }
    if status == Current && (membershipChanged || changed != [] || current.conclusion != accepted.value.conclusion) {
      status := Changed;
    }
    r := Comparison(status, changed, membershipChanged);
  }
}
