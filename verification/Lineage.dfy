/** Supersession of decision records: the closure a source selects
    (src/core/src/decision_source.rs), then the completeness, cycle and one-head checks
    on it (src/core/src/continuity.rs).  A record supersedes earlier ones, each within
    named scopes; a head of a scope is a record nobody replaces in that scope. */
module Lineage {
  import opened Wrappers

  type Id = string
  type Scope = string

  datatype Relation = Relation(id: Id, revision: string, scope: seq<Scope>)
  datatype Record = Record(id: Id, revision: string, scope: seq<Scope>, supersedes: seq<Relation>)
  type Records = map<Id, Record>

  datatype Error =
    | TooManyRecords
    | EmptyScope
    | ForeignSupersession
    | DuplicateTarget
    | DuplicateIdentity
    | IncompleteClosure
    | TargetDiffers
    | Cyclic
    | CompetingHeads

  const MAX_RECORDS := 64

  // ----- the supersession graph -----

  ghost predicate Edge(records: Records, newer: Id, older: Id) {
    newer in records && exists k :: 0 <= k < |records[newer].supersedes| && records[newer].supersedes[k].id == older
  }

  ghost predicate ScopedEdge(records: Records, scope: Scope, newer: Id, older: Id) {
    newer in records &&
    exists k :: 0 <= k < |records[newer].supersedes|
                && records[newer].supersedes[k].id == older && scope in records[newer].supersedes[k].scope
  }

  ghost predicate Path(records: Records, p: seq<Id>) {
    p != [] && forall i :: 0 <= i < |p| - 1 ==> Edge(records, p[i], p[i + 1])
  }

  ghost predicate Cycle(records: Records, p: seq<Id>) {
    Path(records, p) && |p| >= 2 && p[0] == p[|p| - 1]
  }

  ghost predicate Acyclic(records: Records) {
    forall p :: !Cycle(records, p)
  }

  ghost predicate Complete(records: Records) {
    forall newer, older :: Edge(records, newer, older) ==> older in records
  }

  /** Relations name the exact revision of their target and scopes both records have. */
  ghost predicate Bound(records: Records) {
    forall id, k :: id in records && 0 <= k < |records[id].supersedes| ==>
      var relation := records[id].supersedes[k];
      && relation.id in records
      && relation.revision == records[relation.id].revision
      && (forall s :: s in relation.scope ==> s in records[relation.id].scope && s in records[id].scope)
  }

  ghost predicate Replaced(records: Records, id: Id, scope: Scope) {
    exists newer :: ScopedEdge(records, scope, newer, id)
  }

  ghost predicate Head(records: Records, scope: Scope, id: Id) {
    id in records && scope in records[id].scope && !Replaced(records, id, scope)
  }

  ghost predicate ScopedPath(records: Records, scope: Scope, p: seq<Id>) {
    p != [] && forall i :: 0 <= i < |p| - 1 ==> ScopedEdge(records, scope, p[i], p[i + 1])
  }

  /** The same-scope supersession chain of `newer` reaches `older`. */
  ghost predicate Reaches(records: Records, scope: Scope, newer: Id, older: Id) {
    exists p :: ScopedPath(records, scope, p) && p[0] == newer && p[|p| - 1] == older
  }

  ghost predicate HeadOf(records: Records, scope: Scope, head: Id, id: Id) {
    Head(records, scope, head) && Reaches(records, scope, head, id)
  }

  /** No ancestor is reached by two heads of one scope. */
  ghost predicate NoCompetingHeads(records: Records) {
    forall scope, h, h', id :: HeadOf(records, scope, h, id) && HeadOf(records, scope, h', id) ==> h == h'
  }

  ghost predicate OneHead(records: Records, scope: Scope, id: Id) {
    exists h :: HeadOf(records, scope, h, id) && forall h' :: HeadOf(records, scope, h', id) ==> h' == h
  }

  lemma ExtendPath(records: Records, p: seq<Id>, older: Id)
    requires Path(records, p) && Edge(records, p[|p| - 1], older)
    ensures Path(records, p + [older])
  {
    var q := p + [older];
    forall i | 0 <= i < |q| - 1 ensures Edge(records, q[i], q[i + 1]) {
      if i == |p| - 1 { assert q[i] == p[|p| - 1]; }
    }
  }

  lemma ReachesStep(records: Records, scope: Scope, head: Id, newer: Id, older: Id)
    requires Reaches(records, scope, head, newer) && ScopedEdge(records, scope, newer, older)
    ensures Reaches(records, scope, head, older)
  {
    var p :| ScopedPath(records, scope, p) && p[0] == head && p[|p| - 1] == newer;
    var q := p + [older];
    forall i | 0 <= i < |q| - 1 ensures ScopedEdge(records, scope, q[i], q[i + 1]) {
      if i == |p| - 1 { assert q[i] == newer; }
    }
    assert ScopedPath(records, scope, q);
  }

  lemma ReachesSelf(records: Records, scope: Scope, id: Id)
    ensures Reaches(records, scope, id, id)
  {
    assert ScopedPath(records, scope, [id]);
  }

  // ----- the selected closure -----

  ghost predicate ClosedUnder(available: Records, chosen: set<Id>) {
    forall id, older :: id in chosen && Edge(available, id, older) ==> older in chosen
  }

  /** The least set that holds the seeds and whatever its members supersede. */
  ghost predicate LeastClosure(available: Records, seeds: seq<Id>, chosen: set<Id>) {
    && ClosedUnder(available, chosen)
    && (forall id :: id in seeds ==> id in chosen)
    && forall other :: ClosedUnder(available, other) && (forall id :: id in seeds ==> id in other) ==> chosen <= other
  }

  /** The worklist of `load`: succeeds with the least closure exactly when every member of
      it is available. */
  method Select(available: Records, seeds: seq<Id>) returns (result: Result<set<Id>, Error>)
    ensures result.Ok? ==> LeastClosure(available, seeds, result.value) && result.value <= available.Keys
    ensures result.Err? ==> result.error == IncompleteClosure &&
                            forall chosen :: LeastClosure(available, seeds, chosen) ==> !(chosen <= available.Keys)
  {
    var selected: set<Id> := {};
    var pending := seeds;
    while pending != []
      invariant selected <= available.Keys
      invariant forall id :: id in seeds ==> id in selected || id in pending
      invariant forall id, older :: id in selected && Edge(available, id, older) ==>
        older in selected || older in pending
      invariant forall other :: ClosedUnder(available, other) && (forall id :: id in seeds ==> id in other) ==>
                  selected <= other && forall id :: id in pending ==> id in other
      decreases available.Keys - selected, |pending|
    {
      ghost var before := pending;
      var id := pending[|pending| - 1];
      pending := pending[..|pending| - 1];
      assert before == pending + [id] && id in before;
      if id in selected {
        continue;
      }
      if id !in available {
        return Err(IncompleteClosure);
      }
      var older := Targets(available[id].supersedes);
      assert forall x :: x in older <==> Edge(available, id, x);
      pending := pending + older;
      selected := selected + {id};
    }
    result := Ok(selected);
  }

  function Targets(relations: seq<Relation>): (ids: seq<Id>)
    ensures forall x :: x in ids <==> exists k :: 0 <= k < |relations| && relations[k].id == x
  {
    if relations == [] then []
    else
      assert forall k :: 1 <= k < |relations| ==> relations[k] == relations[1..][k - 1];
      [relations[0].id] + Targets(relations[1..])
  }

  /** A context selected from one archive passes the completeness check of the projection. */
  lemma SelectionIsComplete(available: Records, seeds: seq<Id>, chosen: set<Id>)
    requires LeastClosure(available, seeds, chosen) && chosen <= available.Keys
    ensures Complete(map id | id in chosen :: available[id])
  {
    var context := map id | id in chosen :: available[id];
    forall newer, older | Edge(context, newer, older) ensures older in context {
      assert Edge(available, newer, older);
    }
  }

  // ----- normalisation of one record -----

  /** A record supersedes other records only, each once, within some of its own scopes. */
  ghost predicate Normal(record: Record) {
    && record.scope != []
    && (forall k :: 0 <= k < |record.supersedes| ==>
          && record.supersedes[k].id != record.id
          && record.supersedes[k].scope != []
          && forall s :: s in record.supersedes[k].scope ==> s in record.scope)
    && (forall j, k :: 0 <= j < k < |record.supersedes| ==> record.supersedes[j].id != record.supersedes[k].id)
  }

  method Normalize(record: Record) returns (result: Result<Record, Error>)
    ensures result.Ok? <==> Normal(record)
    ensures result.Ok? ==> result.value == record
  {
    if record.scope == [] {
      return Err(EmptyScope);
    }
    var seen: set<Id> := {};
    for k := 0 to |record.supersedes|
      invariant forall x :: x in seen <==> exists j :: 0 <= j < k && record.supersedes[j].id == x
      invariant Normal(record.(supersedes := record.supersedes[..k]))
    {
      var relation := record.supersedes[k];
      if relation.id == record.id || relation.scope == [] || exists s :: s in relation.scope && s !in record.scope {
        assert record.supersedes[k] == relation;
        return Err(ForeignSupersession);
      }
      if relation.id in seen {
        return Err(DuplicateTarget);
      }
      seen := seen + {relation.id};
      var prefix := record.supersedes[..k + 1];
      assert prefix == record.supersedes[..k] + [relation];
    }
    assert record.supersedes[..|record.supersedes|] == record.supersedes;
    result := Ok(record);
  }

  // ----- the depth-first cycle check -----

  /** Finished records: closed under supersession and on no cycle. */
  ghost predicate Settled(records: Records, done: set<Id>) {
    && done <= records.Keys
    && ClosedUnder(records, done)
    && forall p :: Cycle(records, p) ==> p[0] !in done
  }

  ghost predicate Leads(records: Records, from: Id, to: Id) {
    exists p :: Path(records, p) && |p| >= 2 && p[0] == from && p[|p| - 1] == to
  }

  lemma LeadsStep(records: Records, from: Id, newer: Id, older: Id)
    requires from == newer || Leads(records, from, newer)
    requires Edge(records, newer, older)
    ensures Leads(records, from, older)
  {
    var p := [newer];
    if from != newer {
      p :| Path(records, p) && |p| >= 2 && p[0] == from && p[|p| - 1] == newer;
    }
    ExtendPath(records, p, older);
  }

  lemma {:induction false} PathStaysInside(records: Records, inside: set<Id>, p: seq<Id>)
    requires ClosedUnder(records, inside) && Path(records, p) && p[0] in inside
    ensures p[|p| - 1] in inside
    decreases |p|
  {
    if |p| > 1 {
      assert Edge(records, p[0], p[1]);
      assert Path(records, p[1..]);
      PathStaysInside(records, inside, p[1..]);
    }
  }

  /** A record whose targets are all settled is settled too. */
  lemma Settle(records: Records, done: set<Id>, id: Id)
    requires Settled(records, done) && id in records && id !in done
    requires forall older :: Edge(records, id, older) ==> older in done
    ensures Settled(records, done + {id})
  {
    forall p | Cycle(records, p) ensures p[0] !in done + {id} {
      if p[0] == id {
        assert Edge(records, p[0], p[1]);
        assert Path(records, p[1..]);
        PathStaysInside(records, done, p[1..]);
        assert false;
      }
    }
  }

  class Search {
    var active: set<Id>
    var done: set<Id>

    constructor ()
      ensures active == {} && done == {}
    {
      active, done := {}, {};
    }

    /** Fails exactly on a cycle; otherwise the record joins the settled ones and the
        active set is what it was. */
    method Visit(id: Id, records: Records) returns (ok: bool)
      requires Complete(records) && id in records
      requires Settled(records, done) && active <= records.Keys
      requires forall a :: a in active ==> Leads(records, a, id)
      modifies this
      ensures ok ==> Settled(records, done) && old(done) + {id} <= done && active == old(active)
      ensures !ok ==> !Acyclic(records)
      decreases records.Keys - active
    {
      if id in done {
        return true;
      }
      if id in active {
        ghost var p :| Path(records, p) && |p| >= 2 && p[0] == id && p[|p| - 1] == id;
        assert Cycle(records, p);
        return false;
      }
      active := active + {id};
      var supersedes := records[id].supersedes;
      for k := 0 to |supersedes|
        invariant active == old(active) + {id}
        invariant Settled(records, done) && old(done) <= done
        invariant forall j :: 0 <= j < k ==> supersedes[j].id in done
      {
        assert Edge(records, id, supersedes[k].id);
        forall a | a in active ensures Leads(records, a, supersedes[k].id) {
          LeadsStep(records, a, id, supersedes[k].id);
        }
        var visited := Visit(supersedes[k].id, records);
        if !visited {
          return false;
        }
      }
      active := active - {id};
      if id !in done {
        Settle(records, done, id);
      }
      done := done + {id};
      ok := true;
    }
  }

  /** Visiting every record with shared `done` and a fresh `active` decides acyclicity. */
  method CheckAcyclic(records: Records, ids: seq<Id>) returns (ok: bool)
    requires Complete(records) && forall x :: x in ids <==> x in records
    ensures ok <==> Acyclic(records)
  {
    var search := new Search();
    for i := 0 to |ids|
      invariant Settled(records, search.done)
      invariant forall j :: 0 <= j < i ==> ids[j] in search.done
    {
      search.active := {};
      var visited := search.Visit(ids[i], records);
      if !visited {
        return false;
      }
    }
    assert forall x :: x in records ==> x in search.done;
    assert forall p :: Cycle(records, p) ==> Edge(records, p[0], p[1]);
    ok := true;
  }

  // ----- one head per ancestry -----

  type Heads = map<(Id, Scope), Id>

  /** Every entry was written by a head of that scope that reaches the ancestor. */
  ghost predicate Sound(records: Records, heads: Heads) {
    forall id, s :: (id, s) in heads ==> HeadOf(records, s, heads[(id, s)], id)
  }

  ghost predicate Marked(records: Records, heads: Heads, head: Id, scope: Scope) {
    forall id :: Reaches(records, scope, head, id) ==> (id, scope) in heads && heads[(id, scope)] == head
  }

  lemma {:induction false} ScopedPathStaysInside(records: Records, scope: Scope, inside: set<Id>, p: seq<Id>)
    requires forall a, b :: a in inside && ScopedEdge(records, scope, a, b) ==> b in inside
    requires ScopedPath(records, scope, p) && p[0] in inside
    ensures p[|p| - 1] in inside
    decreases |p|
  {
    if |p| > 1 {
      assert ScopedEdge(records, scope, p[0], p[1]);
      assert ScopedPath(records, scope, p[1..]);
      ScopedPathStaysInside(records, scope, inside, p[1..]);
    }
  }

  function ScopedTargets(relations: seq<Relation>, scope: Scope): (ids: seq<Id>)
    ensures forall x :: x in ids <==>
              exists k :: 0 <= k < |relations| && relations[k].id == x && scope in relations[k].scope
  {
    if relations == [] then []
    else
      assert forall k :: 1 <= k < |relations| ==> relations[k] == relations[1..][k - 1];
      (if scope in relations[0].scope then [relations[0].id] else []) + ScopedTargets(relations[1..], scope)
  }

  /** Record `head` for every ancestor its scope reaches; fail when another head was there. */
  method MarkAncestry(records: Records, scope: Scope, head: Id, heads: Heads) returns (ok: bool, marked: Heads)
    requires Complete(records) && Head(records, scope, head) && Sound(records, heads)
    ensures ok ==> Sound(records, marked) && Marked(records, marked, head, scope)
    ensures ok ==> forall key :: key in heads ==> key in marked && marked[key] == heads[key]
    ensures !ok ==> !NoCompetingHeads(records)
  {
    marked := heads;
    var pending := [head];
    var visited: set<Id> := {};
    ReachesSelf(records, scope, head);
    while pending != []
      invariant Sound(records, marked)
      invariant forall key :: key in heads ==> key in marked && marked[key] == heads[key]
      invariant visited <= records.Keys
      invariant forall id :: id in pending ==> id in records && Reaches(records, scope, head, id)
      invariant forall id :: id in visited ==> (id, scope) in marked && marked[(id, scope)] == head
      invariant head in visited || head in pending
      invariant forall a, b :: a in visited && ScopedEdge(records, scope, a, b) ==> b in visited || b in pending
      decreases records.Keys - visited, |pending|
    {
      ghost var before := pending;
      var ancestor := pending[|pending| - 1];
      pending := pending[..|pending| - 1];
      assert before == pending + [ancestor] && ancestor in before;
      if ancestor in visited {
        continue;
      }
      if (ancestor, scope) in marked && marked[(ancestor, scope)] != head {
        assert HeadOf(records, scope, marked[(ancestor, scope)], ancestor);
        assert HeadOf(records, scope, head, ancestor);
        return false, marked;
      }
      marked := marked[(ancestor, scope) := head];
      var older := ScopedTargets(records[ancestor].supersedes, scope);
      forall x | x in older ensures x in records && Reaches(records, scope, head, x) {
        assert ScopedEdge(records, scope, ancestor, x) && Edge(records, ancestor, x);
        ReachesStep(records, scope, head, ancestor, x);
      }
      pending := pending + older;
      visited := visited + {ancestor};
    }
    forall id | Reaches(records, scope, head, id) ensures id in visited {
      var p :| ScopedPath(records, scope, p) && p[0] == head && p[|p| - 1] == id;
      ScopedPathStaysInside(records, scope, visited, p);
    }
    ok := true;
  }

  function ReplacedScopes(replaced: map<Id, set<Scope>>, id: Id): set<Scope> {
    if id in replaced then replaced[id] else {}
  }

  ghost predicate RecordsReplaced(records: Records, replaced: map<Id, set<Scope>>) {
    forall id, s :: s in ReplacedScopes(replaced, id) <==> Replaced(records, id, s)
  }

  method CheckHeads(records: Records, ids: seq<Id>, replaced: map<Id, set<Scope>>) returns (ok: bool)
    requires Complete(records) && forall x :: x in ids <==> x in records
    requires RecordsReplaced(records, replaced)
    ensures ok <==> NoCompetingHeads(records)
  {
    var heads: Heads := map[];
    for i := 0 to |ids|
      invariant Sound(records, heads)
      invariant forall j, s :: 0 <= j < i && Head(records, s, ids[j]) ==> Marked(records, heads, ids[j], s)
    {
      var scopes := records[ids[i]].scope;
      for k := 0 to |scopes|
        invariant Sound(records, heads)
        invariant forall j, s :: 0 <= j < i && Head(records, s, ids[j]) ==> Marked(records, heads, ids[j], s)
        invariant forall j :: 0 <= j < k && Head(records, scopes[j], ids[i]) ==>
          Marked(records, heads, ids[i], scopes[j])
      {
        if scopes[k] in ReplacedScopes(replaced, ids[i]) {
          continue;
        }
        var marked, extended := MarkAncestry(records, scopes[k], ids[i], heads);
        if !marked {
          return false;
        }
        heads := extended;
      }
    }
    forall scope, h, h', id | HeadOf(records, scope, h, id) && HeadOf(records, scope, h', id) ensures h == h' {
      assert h in ids && h' in ids;
      assert Marked(records, heads, h, scope) && Marked(records, heads, h', scope);
    }
    ok := true;
  }

  // ----- the projection's checks -----

  /** What `project` demands of its records before it reads anything out of them. */
  ghost predicate Admissible(input: seq<Record>, records: Records) {
    && |input| <= MAX_RECORDS
    && (forall i :: 0 <= i < |input| ==> Normal(input[i]))
    && (forall i, j :: 0 <= i < j < |input| ==> input[i].id != input[j].id)
    && Named(input, records)
    && Bound(records)
    && Acyclic(records)
    && NoCompetingHeads(records)
  }

  ghost predicate Named(input: seq<Record>, records: Records) {
    && (forall i :: 0 <= i < |input| ==> input[i].id in records && records[input[i].id] == input[i])
    && forall id :: id in records ==> exists i :: 0 <= i < |input| && input[i].id == id
  }

  function Ids(input: seq<Record>): (ids: seq<Id>)
    ensures |ids| == |input| && forall i :: 0 <= i < |ids| ==> ids[i] == input[i].id
  {
    seq(|input|, i requires 0 <= i < |input| => input[i].id)
  }

  /** One of the first `n` relations replaces `id` in `scope`. */
  ghost predicate ReplacedBy(relations: seq<Relation>, n: nat, id: Id, scope: Scope)
    requires n <= |relations|
  {
    exists j :: 0 <= j < n && relations[j].id == id && scope in relations[j].scope
  }

  lemma OneMoreReplaced(relations: seq<Relation>, n: nat, id: Id, scope: Scope)
    requires n < |relations|
    ensures ReplacedBy(relations, n + 1, id, scope) <==>
            ReplacedBy(relations, n, id, scope) || (id == relations[n].id && scope in relations[n].scope)
  {
  }

  /** Check one record's relations and add what they replace. */
  method AddReplaced(records: Records, id: Id, before: map<Id, set<Scope>>)
      returns (result: Result<map<Id, set<Scope>>, Error>)
    requires id in records
    ensures result.Ok? <==> BoundRelations(records, id)
    ensures result.Ok? ==> forall x, s :: s in ReplacedScopes(result.value, x) <==>
                                          s in ReplacedScopes(before, x) || ScopedEdge(records, s, id, x)
  {
    var relations := records[id].supersedes;
    var replaced := before;
    for k := 0 to |relations|
      invariant forall j :: 0 <= j < k ==> BoundRelation(records, relations[j])
      invariant forall x, s :: s in ReplacedScopes(replaced, x) <==>
                               s in ReplacedScopes(before, x) || ReplacedBy(relations, k, x, s)
    {
      var relation := relations[k];
      if relation.id !in records {
        return Err(IncompleteClosure);
      }
      var prior := records[relation.id];
      if relation.revision != prior.revision || exists s :: s in relation.scope && s !in prior.scope {
        assert !BoundRelation(records, relations[k]);
        return Err(TargetDiffers);
      }
      ghost var earlier := replaced;
      var extended := ReplacedScopes(replaced, relation.id) + set s | s in relation.scope;
      replaced := replaced[relation.id := extended];
      forall x, s
        ensures s in ReplacedScopes(replaced, x) <==>
          s in ReplacedScopes(before, x) || ReplacedBy(relations, k + 1, x, s)
      {
        OneMoreReplaced(relations, k, x, s);
        assert s in ReplacedScopes(replaced, x) <==>
               s in ReplacedScopes(earlier, x) || (x == relation.id && s in relation.scope);
      }
    }
    result := Ok(replaced);
  }

  /** Check every record's relations; on success they are bound and what they replace is known. */
  method CollectReplaced(records: Records, ids: seq<Id>) returns (result: Result<map<Id, set<Scope>>, Error>)
    requires forall x :: x in ids <==> x in records
    ensures result.Ok? <==> forall id :: id in records ==> BoundRelations(records, id)
    ensures result.Ok? ==> RecordsReplaced(records, result.value)
  {
    var replaced: map<Id, set<Scope>> := map[];
    for i := 0 to |ids|
      invariant forall j :: 0 <= j < i ==> BoundRelations(records, ids[j])
      invariant forall x, s :: s in ReplacedScopes(replaced, x) <==>
                               exists j :: 0 <= j < i && ScopedEdge(records, s, ids[j], x)
    {
      assert ids[i] in ids;
      var added := AddReplaced(records, ids[i], replaced);
      if added.Err? {
        return Err(added.error);
      }
      replaced := added.value;
    }
    forall x, s ensures s in ReplacedScopes(replaced, x) <==> Replaced(records, x, s) {
      if Replaced(records, x, s) {
        var newer :| ScopedEdge(records, s, newer, x);
        assert newer in ids;
      }
    }
    result := Ok(replaced);
  }

  ghost predicate BoundRelation(records: Records, relation: Relation) {
    && relation.id in records
    && relation.revision == records[relation.id].revision
    && forall s :: s in relation.scope ==> s in records[relation.id].scope
  }

  ghost predicate BoundRelations(records: Records, id: Id)
    requires id in records
  {
    forall k :: 0 <= k < |records[id].supersedes| ==> BoundRelation(records, records[id].supersedes[k])
  }

  method Collect(input: seq<Record>) returns (result: Result<Records, Error>)
    ensures result.Ok? <==> (forall i :: 0 <= i < |input| ==> Normal(input[i]))
                            && forall i, j :: 0 <= i < j < |input| ==> input[i].id != input[j].id
    ensures result.Ok? ==> Named(input, result.value)
  {
    var records: Records := map[];
    for i := 0 to |input|
      invariant forall j :: 0 <= j < i ==>
        Normal(input[j]) && input[j].id in records && records[input[j].id] == input[j]
      invariant forall j, k :: 0 <= j < k < i ==> input[j].id != input[k].id
      invariant forall id :: id in records ==> exists j :: 0 <= j < i && input[j].id == id
    {
      var normalized := Normalize(input[i]);
      if normalized.Err? {
        return Err(normalized.error);
      }
      if input[i].id in records {
        return Err(DuplicateIdentity);
      }
      records := records[input[i].id := input[i]];
    }
    result := Ok(records);
  }

  /** The checks of `project`: success means exactly that the records are admissible, and
      then the replaced scopes are known. */
  method Project(input: seq<Record>) returns (result: Result<(Records, map<Id, set<Scope>>), Error>)
    ensures result.Ok? ==> Admissible(input, result.value.0) && RecordsReplaced(result.value.0, result.value.1)
    ensures result.Ok? ==> EveryScopeHasOneHead(result.value.0)
    ensures result.Err? ==> forall records :: !Admissible(input, records)
  {
    if |input| > MAX_RECORDS {
      return Err(TooManyRecords);
    }
    var collected := Collect(input);
    if collected.Err? {
      return Err(collected.error);
    }
    var records := collected.value;
    forall other | Named(input, other) ensures other == records {
      OneNaming(input, records, other);
    }
    var ids := Ids(input);
    assert forall x :: x in ids <==> x in records;
    var replaced := CollectReplaced(records, ids);
    AllBound(input, records);
    if replaced.Err? {
      return Err(replaced.error);
    }
    var acyclic := CheckAcyclic(records, ids);
    if !acyclic {
      return Err(Cyclic);
    }
    var single := CheckHeads(records, ids, replaced.value);
    if !single {
      return Err(CompetingHeads);
    }
    HeadsAreUnique(records);
    result := Ok((records, replaced.value));
  }

  lemma OneNaming(input: seq<Record>, records: Records, other: Records)
    requires Named(input, records) && Named(input, other)
    ensures records == other
  {
    assert records.Keys == other.Keys;
  }

  lemma AllBound(input: seq<Record>, records: Records)
    requires Named(input, records) && forall i :: 0 <= i < |input| ==> Normal(input[i])
    ensures Bound(records) <==> forall id :: id in records ==> BoundRelations(records, id)
    ensures Bound(records) ==> Complete(records)
  {
    if forall id :: id in records ==> BoundRelations(records, id) {
      forall id, k | id in records && 0 <= k < |records[id].supersedes|
        ensures BoundRelation(records, records[id].supersedes[k])
        ensures forall s :: s in records[id].supersedes[k].scope ==> s in records[id].scope
      {
        assert BoundRelations(records, id);
      }
    }
  }

  // ----- what the checks are for: exactly one current head -----

  /** Climb from a record to whoever replaces it, in one scope, until nobody does. */
  lemma {:induction false} Climb(records: Records, scope: Scope, p: seq<Id>) returns (head: Id)
    requires Bound(records) && Acyclic(records)
    requires ScopedPath(records, scope, p) && p[0] in records && scope in records[p[0]].scope
    ensures HeadOf(records, scope, head, p[|p| - 1])
    decreases records.Keys - set x | x in p
  {
    head := p[0];
    if Replaced(records, head, scope) {
      var newer :| ScopedEdge(records, scope, newer, head);
      var longer := [newer] + p;
      forall i | 0 <= i < |longer| - 1
        ensures ScopedEdge(records, scope, longer[i], longer[i + 1]) && Edge(records, longer[i], longer[i + 1])
      {
        if i > 0 { assert ScopedEdge(records, scope, p[i - 1], p[i]); }
      }
      if newer in p {
        var i :| 0 <= i < |p| && p[i] == newer;
        assert Cycle(records, longer[..i + 2]);
        assert false;
      } else {
        assert newer in longer;
        assert forall x :: x in p ==> x in longer;
        assert newer in records.Keys - (set x | x in p);
        head := Climb(records, scope, longer);
        assert longer[|longer| - 1] == p[|p| - 1];
      }
    }
  }

  lemma ReachedScope(records: Records, scope: Scope, head: Id, id: Id)
    requires Bound(records) && HeadOf(records, scope, head, id)
    ensures id in records && scope in records[id].scope
  {
    var p :| ScopedPath(records, scope, p) && p[0] == head && p[|p| - 1] == id;
    if |p| > 1 {
      assert ScopedEdge(records, scope, p[|p| - 2], p[|p| - 1]);
    }
  }

  ghost predicate EveryScopeHasOneHead(records: Records) {
    forall id, scope :: id in records && scope in records[id].scope ==> OneHead(records, scope, id)
  }

  /** The last check passes exactly when every record has, in each of its scopes, exactly one
      unreplaced head whose same-scope chain reaches it; a diamond is no obstacle. */
  lemma HeadsAreUnique(records: Records)
    requires Bound(records) && Acyclic(records)
    ensures NoCompetingHeads(records) <==> EveryScopeHasOneHead(records)
  {
    if NoCompetingHeads(records) {
      forall id, scope | id in records && scope in records[id].scope ensures OneHead(records, scope, id) {
        assert ScopedPath(records, scope, [id]);
        var head := Climb(records, scope, [id]);
      }
    }
    if EveryScopeHasOneHead(records) {
      forall scope, h, h', id | HeadOf(records, scope, h, id) && HeadOf(records, scope, h', id) ensures h == h' {
        ReachedScope(records, scope, h, id);
        assert OneHead(records, scope, id);
      }
    }
  }
}
