/** Ordered multi-file publication (src/core/src/native_adoption.rs, `publish`, and `remove`
    of src/core/src/native_enclave.rs).  Every file operation costs one unit of a budget, and
    a call whose budget runs out has crashed there; so what holds for every budget holds at
    every crash point.  Temporaries are kept apart from the tree: their names, which carry the
    digest of the admitted invocation, collide with nothing else. */
module Adoption {
  import opened Wrappers
  import opened Enclave
  import Ordering

  datatype Update =
    | Text(before: Option<string>, after: Option<string>)
    | Residual(before_: Node)

  type Updates = map<Path, Update>

  /** A temporary whose write was interrupted, or a whole one. */
  datatype Temporary = Torn | Whole(text: string)

  datatype State = State(fs: FileSystem, temps: map<Path, Temporary>)

  const IDENTITY: Path := [".agentic-workspace", "adoption.json"]

  // ----- the publication order -----

  function Rank(path: Path, adopt: bool): nat {
    if path == IDENTITY then if adopt then 2 else 0 else 1
  }

  /** The sort key: rank, then deeper paths first. */
  predicate NotAfter(a: Path, b: Path, adopt: bool) {
    || Rank(a, adopt) < Rank(b, adopt)
    || (Rank(a, adopt) == Rank(b, adopt) && (a == IDENTITY || |a| >= |b|))
  }

  ghost predicate Sorted(order: seq<Path>, adopt: bool) {
    forall i, j :: 0 <= i < j < |order| ==> NotAfter(order[i], order[j], adopt)
  }

  function PublicationOrder(adopt: bool): (Path, Path) -> bool {
    (a: Path, b: Path) => NotAfter(a, b, adopt)
  }

  function Sort(paths: seq<Path>, adopt: bool): seq<Path> {
    Ordering.Sort(paths, PublicationOrder(adopt))
  }

  /** Sorting arranges the updated paths in publication order. */
  lemma SortSorts(paths: seq<Path>, adopt: bool)
    ensures Sorted(Sort(paths, adopt), adopt) && multiset(Sort(paths, adopt)) == multiset(paths)
  {
    assert Ordering.TotalOrder(PublicationOrder(adopt));
    Ordering.SortSorts(paths, PublicationOrder(adopt));
  }

  /** The paths of the updates, each once, in publication order. */
  ghost predicate Order(order: seq<Path>, updates: Updates, adopt: bool) {
    && Sorted(order, adopt)
    && (forall i, j :: 0 <= i < j < |order| ==> order[i] != order[j])
    && forall path :: path in order <==> path in updates
  }

  // ----- file operations under a budget -----

  datatype Failure = Crashed | Refused(path: Path)

  datatype Progress = Running(state: State, budget: nat) | Halted(state: State, failure: Failure)

  datatype Operation =
    | MakeDirectory
    | OpenTemporary
    | WriteTemporary(text: string)
    | LinkTemporary(text: string)
    | RemoveTemporary
    | RenameTemporary(text: string)
    | Remove

  function Effect(path: Path, operation: Operation, s: State): State {
    match operation
    case MakeDirectory => s.(fs := s.fs[path := Directory])
    case OpenTemporary => s.(temps := s.temps[path := Torn])
    case WriteTemporary(text) => s.(temps := s.temps[path := Whole(text)])
    case LinkTemporary(text) => s.(fs := s.fs[path := Regular(text)])
    case RemoveTemporary => s.(temps := s.temps - {path})
    case RenameTemporary(text) => State(s.fs[path := Regular(text)], s.temps - {path})
    case Remove => s.(fs := s.fs - {path})
  }

  function Do(path: Path, operation: Operation, p: Progress): Progress {
    match p
    case Halted(_, _) => p
    case Running(s, budget) =>
      if budget == 0 then Halted(s, Crashed) else Running(Effect(path, operation, s), budget - 1)
  }

  // ----- one path -----

  /** `bytes`: absent or regular text; anything else is refused. */
  predicate Readable(fs: FileSystem, path: Path) {
    path in fs ==> fs[path].Regular?
  }

  function Content(fs: FileSystem, path: Path): Option<string>
    requires Readable(fs, path)
  {
    if path in fs then Some(fs[path].text) else None
  }

  /** `create_dir_all` on the parent: make the missing ancestors, from the top down; refuse
      when one is no directory. */
  function MakeAncestors(path: Path, n: nat, p: Progress): Progress
    requires n <= |path|
    decreases |path| - n
  {
    if p.Halted? || n + 1 >= |path| then p
    else
      var ancestor := path[..n + 1];
      if ancestor !in p.state.fs then MakeAncestors(path, n + 1, Do(ancestor, MakeDirectory, p))
      else if p.state.fs[ancestor].Directory? then MakeAncestors(path, n + 1, p)
      else Halted(p.state, Refused(path))
  }

  /** Prepare the temporary and put it in place, once the directories are there. */
  function PlaceText(path: Path, current: Option<string>, text: string, recovery: bool, p: Progress): Progress {
    if p.Halted? then p
    else if path in p.state.temps && (p.state.temps[path] != Whole(text) || !recovery)
        then Halted(p.state, Refused(path))
    else
      var prepared :=
        if path in p.state.temps then p else Do(path, WriteTemporary(text), Do(path, OpenTemporary, p));
      if current.None? then Do(path, RemoveTemporary, Do(path, LinkTemporary(text), prepared))
      else Do(path, RenameTemporary(text), prepared)
  }

  function PublishText(path: Path, before: Option<string>, after: Option<string>, recovery: bool, s: State,
                       budget: nat): Progress {
    if !Readable(s.fs, path) then Halted(s, Refused(path))
    else
      var current := Content(s.fs, path);
      if recovery && current == after then Running(s, budget)
      else if current != before then Halted(s, Refused(path))
      else match after
        case None => if current.Some? then Do(path, Remove, Running(s, budget)) else Running(s, budget)
        case Some(text) => PlaceText(path, current, text, recovery, MakeAncestors(path, 0, Running(s, budget)))
  }

  datatype Ancestors = Present | Missing | Changed

  /** The first ancestor, from the top, that is not an observed directory. */
  function CheckAncestors(fs: FileSystem, path: Path, n: nat): Ancestors
    requires n <= |path|
    decreases |path| - n
  {
    if n >= |path| - 1 then Present
    else
      var ancestor := path[..n + 1];
      if ancestor !in fs then Missing
      else if !fs[ancestor].Directory? then Changed
      else CheckAncestors(fs, path, n + 1)
  }

  predicate EmptyDirectory(fs: FileSystem, path: Path) {
    forall x :: x in fs ==> !Below(path, x)
  }

  predicate RemovalPath(path: Path) {
    |path| >= 2 && path[0] == ROOT[0] && forall k :: 0 <= k < |path| ==> path[k] !in ["", ".", ".."]
  }

  function PublishResidue(path: Path, expected: Node, recovery: bool, s: State, budget: nat): Progress {
    if !RemovalPath(path) then Halted(s, Refused(path))
    else match CheckAncestors(s.fs, path, 0)
      case Changed => Halted(s, Refused(path))
      case Missing => if recovery then Running(s, budget) else Halted(s, Refused(path))
      case Present =>
        if path !in s.fs then if recovery then Running(s, budget) else Halted(s, Refused(path))
        else if s.fs[path] != expected then Halted(s, Refused(path))
        else if expected.Directory? && !EmptyDirectory(s.fs, path) then Halted(s, Refused(path))
        else Do(path, Remove, Running(s, budget))
  }

  function PublishOne(path: Path, updates: Updates, recovery: bool, p: Progress): Progress
    requires path in updates
  {
    if p.Halted? then p
    else match updates[path]
      case Text(before, after) => PublishText(path, before, after, recovery, p.state, p.budget)
      case Residual(expected) => PublishResidue(path, expected, recovery, p.state, p.budget)
  }

  function PublishAll(order: seq<Path>, updates: Updates, recovery: bool, p: Progress): Progress
    requires forall path :: path in order ==> path in updates
  {
    if order == [] then p
    else PublishAll(order[1..], updates, recovery, PublishOne(order[0], updates, recovery, p))
  }

  // ----- preimages, postimages and the frontier between them -----

  ghost predicate Pre(s: State, path: Path, update: Update) {
    match update
    case Text(before, _) => Readable(s.fs, path) && Content(s.fs, path) == before
    case Residual(expected) => path in s.fs && s.fs[path] == expected
  }

  ghost predicate Post(s: State, path: Path, update: Update) {
    match update
    case Text(_, after) => Readable(s.fs, path) && Content(s.fs, path) == after
    case Residual(_) => path !in s.fs
  }

  /** A temporary can only be the admitted postimage, or the beginning of it. */
  ghost predicate TempOk(s: State, path: Path, update: Update) {
    path in s.temps ==> update.Text? && update.after.Some? && s.temps[path] in [Torn, Whole(update.after.value)]
  }

  ghost predicate Untouched(s: State, path: Path, update: Update) {
    Pre(s, path, update) && path !in s.temps
  }

  ghost predicate Between(s: State, path: Path, update: Update) {
    (Pre(s, path, update) || Post(s, path, update)) && TempOk(s, path, update)
  }

  ghost predicate Settled(s: State, path: Path, update: Update) {
    Post(s, path, update) && TempOk(s, path, update)
  }

  /** The update publishes a text, so the directories above it must be there. */
  predicate Publishes(update: Update) {
    update.Text? && update.after.Some?
  }

  /** A published text lies below. */
  ghost predicate AboveText(updates: Updates, x: Path) {
    exists path :: path in updates && Publishes(updates[path]) && Below(x, path)
  }

  /** Whatever was observed and is not updated is as it was; whatever is new is a directory
      above a published text. */
  ghost predicate Spared(base: FileSystem, updates: Updates, s: State, x: Path) {
    if x in base then x in s.fs && s.fs[x] == base[x]
    else x in s.fs ==> x != [] && s.fs[x].Directory? && AboveText(updates, x)
  }

  /** Everything before position `i` is published, everything after it is untouched, and
      the rest of the tree is spared. */
  ghost predicate Frontier(base: FileSystem, order: seq<Path>, updates: Updates, s: State, i: nat)
    requires forall path :: path in order ==> path in updates
  {
    && i <= |order|
    && (forall j :: 0 <= j < i ==> Settled(s, order[j], updates[order[j]]))
    && (i < |order| ==> Between(s, order[i], updates[order[i]]))
    && (forall j :: i < j < |order| ==> Untouched(s, order[j], updates[order[j]]))
    && (forall x :: x !in updates ==> Spared(base, updates, s, x))
    && Tree(s.fs)
  }

  /** What the observation supplies: a tree in which a removed directory's contents are all
      removed too, and no text is published below a removed path, another text or an observed
      file. */
  ghost predicate Plan(base: FileSystem, updates: Updates) {
    && Tree(base) && [] !in updates
    && (forall x :: x in updates ==> Pre(State(base, map[]), x, updates[x]))
    && (forall x, y :: x in updates && updates[x].Residual? && y in base && Below(x, y) ==>
          y in updates && updates[y].Residual?)
    && (forall x, y :: x in updates && y in updates && updates[y].Text? ==> !Below(x, y))
    && (forall x, y :: x in base && x != [] && y in updates && updates[y].Text? && Below(x, y) ==> base[x].Directory?)
    && (forall x :: x in updates && updates[x].Residual? ==> RemovalPath(x) && x != IDENTITY)
  }

  ghost predicate SameTemp(s: State, s': State, x: Path) {
    (x in s.temps <==> x in s'.temps) && (x in s.temps ==> s'.temps[x] == s.temps[x])
  }

  ghost predicate SameAt(s: State, s': State, x: Path) {
    && (x in s.fs <==> x in s'.fs) && (x in s.fs ==> s'.fs[x] == s.fs[x])
    && SameTemp(s, s', x)
  }

  ghost predicate NewDirectory(s: State, s': State, x: Path) {
    x != [] && x !in s.fs && x in s'.fs && s'.fs[x].Directory?
  }

  /** Apart from this path and its temporary only directories above it can be new. */
  ghost predicate Elsewhere(s: State, s': State, path: Path, update: Update) {
    forall x :: x != path ==>
      SameAt(s, s', x)
      || (SameTemp(s, s', x) && NewDirectory(s, s', x) && Publishes(update) && Below(x, path))
  }

  /** A recovery stops for good only at a torn temporary of a path not yet published. */
  ghost predicate Stuck(s: State, path: Path, update: Update) {
    path in s.temps && s.temps[path] == Torn && !Post(s, path, update)
  }

  /** An upper bound on the file operations one path takes. */
  function Cost(path: Path): nat {
    |path| + 4
  }

  function TotalCost(order: seq<Path>): nat {
    if order == [] then 0 else Cost(order[0]) + TotalCost(order[1..])
  }

  lemma CostOfRest(order: seq<Path>, i: nat)
    requires i < |order|
    ensures TotalCost(order[i..]) == Cost(order[i]) + TotalCost(order[i + 1..])
  {
    assert order[i..][0] == order[i] && order[i..][1..] == order[i + 1..];
  }

  /** One published path: from its preimage or postimage it ends at its postimage, or
      stops between the two when the budget runs out or a temporary is torn. */
  ghost predicate Stepped(s: State, path: Path, update: Update, budget: nat, recovery: bool, p: Progress) {
    && Elsewhere(s, p.state, path, update) && Tree(p.state.fs)
    && Between(p.state, path, update)
    && (p.Running? ==> Settled(p.state, path, update) && p.budget + Cost(path) >= budget)
    && (p.Halted? ==>
          || (p.failure == Crashed && budget < Cost(path))
          || (p.failure == Refused(path) && recovery && Stuck(s, path, update) && Stuck(p.state, path, update)))
    && (recovery && Stuck(s, path, update) ==> p.Halted?)
  }

  // ----- making the directories -----

  /** Nothing but directories lies above the path. */
  ghost predicate Clear(fs: FileSystem, path: Path) {
    forall a :: a in fs && a != [] && Below(a, path) ==> fs[a].Directory?
  }

  /** The parent of `path[..n + 1]` is there. */
  predicate HousedTo(fs: FileSystem, path: Path, n: nat)
    requires n <= |path|
  {
    n == 0 || (path[..n] in fs && fs[path[..n]].Directory?)
  }

  /** From `s` to `s'` only directories above the path have been made. */
  ghost predicate Houses(s: State, s': State, path: Path) {
    && s'.temps == s.temps
    && (forall x :: x in s.fs ==> x in s'.fs && s'.fs[x] == s.fs[x])
    && forall x :: x in s'.fs && x !in s.fs ==> x != [] && Below(x, path) && s'.fs[x].Directory?
  }

  lemma HousesTransitive(a: State, b: State, c: State, path: Path)
    requires Houses(a, b, path) && Houses(b, c, path)
    ensures Houses(a, c, path)
  {
  }

  lemma MakeOne(s: State, path: Path, n: nat) returns (s': State)
    requires n + 1 < |path| && Tree(s.fs) && HousedTo(s.fs, path, n) && path[..n + 1] !in s.fs && Clear(s.fs, path)
    ensures s' == Effect(path[..n + 1], MakeDirectory, s)
    ensures Tree(s'.fs) && Clear(s'.fs, path) && HousedTo(s'.fs, path, n + 1) && Houses(s, s', path)
  {
    var made := path[..n + 1];
    s' := Effect(made, MakeDirectory, s);
    assert made != [] && Below(made, path);
    assert made[..|made| - 1] == path[..n];
  }

  /** What a run of `create_dir_all` leaves: a tree grown by directories above the path, all of
      them when it was not interrupted. */
  ghost predicate Made(path: Path, n: nat, p: Progress, r: Progress)
    requires p.Running? && n <= |path|
  {
    && Tree(r.state.fs) && Clear(r.state.fs, path) && Houses(p.state, r.state, path)
    && (r.Halted? ==> r.failure == Crashed && p.budget + n < |path|)
    && (r.Running? ==> r.budget + |path| >= p.budget + n && (path != [] ==> HousedTo(r.state.fs, path, |path| - 1)))
  }

  /** The next ancestor is there, is made now, or is where the call crashes. */
  lemma NextAncestor(path: Path, n: nat, p: Progress)
    requires p.Running? && n + 1 < |path| && Clear(p.state.fs, path)
    ensures MakeAncestors(path, n, p) ==
      if path[..n + 1] in p.state.fs then MakeAncestors(path, n + 1, p)
      else if p.budget > 0 then MakeAncestors(path, n + 1,
                                              Running(Effect(path[..n + 1], MakeDirectory, p.state), p.budget - 1))
      else Halted(p.state, Crashed)
    ensures path[..n + 1] in p.state.fs ==> HousedTo(p.state.fs, path, n + 1)
  {
    var ancestor := path[..n + 1];
    assert ancestor != [] && Below(ancestor, path);
    if ancestor !in p.state.fs && p.budget == 0 {
      HaltedMakesNothing(path, n + 1, Halted(p.state, Crashed));
    }
  }

  lemma {:induction false} MakingAncestors(path: Path, n: nat, p: Progress)
    requires p.Running? && n <= |path| && (path != [] ==> n < |path|)
    requires Tree(p.state.fs) && Clear(p.state.fs, path) && HousedTo(p.state.fs, path, n)
    ensures Made(path, n, p, MakeAncestors(path, n, p))
    decreases |path| - n, 1
  {
    if n + 1 >= |path| {
      MadeNothing(path, n, p);
    } else {
      NextAncestor(path, n, p);
      if path[..n + 1] in p.state.fs {
        MakingAncestors(path, n + 1, p);
        MadeSkip(path, n, p, MakeAncestors(path, n + 1, p));
      } else if p.budget > 0 {
        MakingMissing(path, n, p);
      } else {
        MadeCrash(path, n, p);
      }
    }
  }

  lemma {:induction false} MakingMissing(path: Path, n: nat, p: Progress)
    requires p.Running? && n + 1 < |path| && p.budget > 0 && path[..n + 1] !in p.state.fs
    requires Tree(p.state.fs) && Clear(p.state.fs, path) && HousedTo(p.state.fs, path, n)
    ensures Made(path, n, p, MakeAncestors(path, n + 1,
                                           Running(Effect(path[..n + 1], MakeDirectory, p.state), p.budget - 1)))
    decreases |path| - n, 0
  {
    var made := MakeOne(p.state, path, n);
    var next := Running(made, p.budget - 1);
    MakingAncestors(path, n + 1, next);
    MadeOneMore(path, n, p, next, MakeAncestors(path, n + 1, next));
  }

  lemma MadeNothing(path: Path, n: nat, p: Progress)
    requires p.Running? && n <= |path| <= n + 1 && (path != [] ==> n < |path|)
    requires Tree(p.state.fs) && Clear(p.state.fs, path) && HousedTo(p.state.fs, path, n)
    ensures Made(path, n, p, p)
  {
  }

  lemma MadeSkip(path: Path, n: nat, p: Progress, r: Progress)
    requires p.Running? && n + 1 < |path| && Made(path, n + 1, p, r)
    ensures Made(path, n, p, r)
  {
  }

  lemma MadeCrash(path: Path, n: nat, p: Progress)
    requires p.Running? && n + 1 < |path| && p.budget == 0 && Tree(p.state.fs) && Clear(p.state.fs, path)
    ensures Made(path, n, p, Halted(p.state, Crashed))
  {
  }

  lemma MadeOneMore(path: Path, n: nat, p: Progress, next: Progress, r: Progress)
    requires p.Running? && next.Running? && n + 1 < |path| && Houses(p.state, next.state, path)
      && next.budget + 1 == p.budget
    requires Made(path, n + 1, next, r)
    ensures Made(path, n, p, r)
  {
    HousesTransitive(p.state, next.state, r.state, path);
  }

  lemma HaltedMakesNothing(path: Path, n: nat, p: Progress)
    requires p.Halted? && n <= |path|
    ensures MakeAncestors(path, n, p) == p
  {
  }

  // ----- publishing one text -----

  /** Placing a text in a housed state changes nothing else. */
  ghost predicate Placed(s: State, path: Path, update: Update, recovery: bool, budget: nat, p: Progress) {
    && (forall x :: x != path ==> SameAt(s, p.state, x))
    && Between(p.state, path, update) && Tree(p.state.fs)
    && (p.Running? ==> Settled(p.state, path, update) && p.budget + 4 >= budget)
    && (p.Halted? ==>
          || (p.failure == Crashed && budget < 4)
          || (p.failure == Refused(path) && recovery && Stuck(s, path, update) && Stuck(p.state, path, update)))
    && (recovery && Stuck(s, path, update) ==> p.Halted?)
  }

  lemma LinkingNew(path: Path, text: string, recovery: bool, s: State, budget: nat)
    requires Tree(s.fs) && Tree(s.fs[path := Regular(text)]) && path !in s.fs
    requires path in s.temps && s.temps[path] == Whole(text)
    ensures var p := Do(path, RemoveTemporary, Do(path, LinkTemporary(text), Running(s, budget)));
      Placed(s, path, Text(None, Some(text)), recovery, budget, p)
          && (budget >= 2 ==> p.Running? && p.budget + 2 == budget)
  {
  }

  lemma PlacingNew(path: Path, text: string, recovery: bool, s: State, budget: nat)
    requires Tree(s.fs) && Tree(s.fs[path := Regular(text)])
    requires Pre(s, path, Text(None, Some(text))) && TempOk(s, path, Text(None, Some(text)))
    requires recovery || path !in s.temps
    ensures Placed(s, path, Text(None, Some(text)), recovery, budget,
                   PlaceText(path, None, text, recovery, Running(s, budget)))
  {
    if path in s.temps {
      if s.temps[path] == Whole(text) {
        LinkingNew(path, text, recovery, s, budget);
      }
    } else if budget >= 2 {
      PreparingNew(path, text, recovery, s, budget);
    } else {
      PreparingCrashes(path, text, recovery, s, budget);
    }
  }

  lemma PreparingNew(path: Path, text: string, recovery: bool, s: State, budget: nat)
    requires Tree(s.fs) && Tree(s.fs[path := Regular(text)])
    requires path !in s.fs && path !in s.temps && budget >= 2
    ensures Placed(s, path, Text(None, Some(text)), recovery, budget,
                   PlaceText(path, None, text, recovery, Running(s, budget)))
  {
    var prepared := s.(temps := s.temps[path := Whole(text)]);
    assert s.temps[path := Torn][path := Whole(text)] == prepared.temps;
    assert Do(path, WriteTemporary(text), Do(path, OpenTemporary, Running(s, budget))) == Running(prepared, budget - 2);
    LinkingNew(path, text, recovery, prepared, budget - 2);
    PreparedFirst(path, text, recovery, s, prepared, budget, PlaceText(path, None, text, recovery, Running(s, budget)));
  }

  lemma PreparedFirst(path: Path, text: string, recovery: bool, s: State, prepared: State, budget: nat, p: Progress)
    requires budget >= 2 && path !in s.temps && prepared == s.(temps := s.temps[path := Whole(text)])
    requires Placed(prepared, path, Text(None, Some(text)), recovery, budget - 2, p)
    ensures forall x :: x != path ==> SameAt(s, p.state, x)
  {
    forall x | x != path ensures SameAt(s, p.state, x) {
      assert SameAt(prepared, p.state, x);
    }
  }

  lemma PreparingCrashes(path: Path, text: string, recovery: bool, s: State, budget: nat)
    requires Tree(s.fs) && Pre(s, path, Text(None, Some(text))) && path !in s.temps && budget < 2
    ensures Placed(s, path, Text(None, Some(text)), recovery, budget,
                   PlaceText(path, None, text, recovery, Running(s, budget)))
  {
  }

  lemma PlacingOver(path: Path, before: string, text: string, recovery: bool, s: State, budget: nat)
    requires Tree(s.fs) && Tree(s.fs[path := Regular(text)]) && (before != text || !recovery)
    requires Pre(s, path, Text(Some(before), Some(text))) && TempOk(s, path, Text(Some(before), Some(text)))
    requires recovery || path !in s.temps
    ensures Placed(s, path, Text(Some(before), Some(text)), recovery, budget,
                   PlaceText(path, Some(before), text, recovery, Running(s, budget)))
  {
  }

  lemma PlacingText(path: Path, before: Option<string>, text: string, recovery: bool, s: State, budget: nat)
    requires path != [] && Tree(s.fs) && HousedTo(s.fs, path, |path| - 1)
    requires Pre(s, path, Text(before, Some(text))) && TempOk(s, path, Text(before, Some(text)))
    requires before != Some(text) || !recovery
    requires recovery || path !in s.temps
    ensures Placed(s, path, Text(before, Some(text)), recovery, budget,
                   PlaceText(path, before, text, recovery, Running(s, budget)))
  {
    TextKeepsTree(s.fs, path, text);
    match before {
      case None => PlacingNew(path, text, recovery, s, budget);
      case Some(old') => PlacingOver(path, old', text, recovery, s, budget);
    }
  }

  lemma TextKeepsTree(fs: FileSystem, path: Path, text: string)
    requires path != [] && Tree(fs) && HousedTo(fs, path, |path| - 1) && Readable(fs, path)
    ensures Tree(fs[path := Regular(text)])
  {
    forall y | y in fs && |y| > 1 ensures y[..|y| - 1] != path {
    }
  }

  lemma RemovalKeepsTree(fs: FileSystem, path: Path)
    requires Tree(fs) && forall y :: y in fs ==> !Below(path, y)
    ensures Tree(fs - {path})
  {
    forall y | y in fs && |y| > 1 && y != path ensures y[..|y| - 1] != path {
      assert Below(y[..|y| - 1], y);
    }
  }

  lemma FileIsLeaf(fs: FileSystem, path: Path)
    requires Tree(fs) && path != [] && path in fs && !fs[path].Directory?
    ensures forall y :: y in fs ==> !Below(path, y)
  {
    forall y | y in fs ensures !Below(path, y) {
      if Below(path, y) { AncestorIsDirectory(fs, path, y); }
    }
  }

  lemma StepText(path: Path, before: Option<string>, after: Option<string>, recovery: bool, s: State, budget: nat)
    requires path != [] && Tree(s.fs) && Clear(s.fs, path)
    requires Between(s, path, Text(before, after))
    requires recovery || Untouched(s, path, Text(before, after))
    ensures Stepped(s, path, Text(before, after), budget, recovery,
                    PublishText(path, before, after, recovery, s, budget))
  {
    var current := Content(s.fs, path);
    if (recovery && current == after) || current != before || (after.None? && current.None?) {
      StepNothing(path, before, after, recovery, s, budget);
    } else if after.None? {
      StepRemoval(path, before, recovery, s, budget);
    } else {
      StepPlacement(path, before, after.value, recovery, s, budget);
    }
  }

  lemma StepNothing(path: Path, before: Option<string>, after: Option<string>, recovery: bool, s: State, budget: nat)
    requires Tree(s.fs) && Between(s, path, Text(before, after))
      && (recovery || Untouched(s, path, Text(before, after)))
    requires var current := Content(s.fs, path);
      (recovery && current == after) || current != before || (after.None? && current.None?)
    ensures Stepped(s, path, Text(before, after), budget, recovery,
                    PublishText(path, before, after, recovery, s, budget))
  {
    assert PublishText(path, before, after, recovery, s, budget) == Running(s, budget);
  }

  lemma StepRemoval(path: Path, before: Option<string>, recovery: bool, s: State, budget: nat)
    requires path != [] && Tree(s.fs) && Between(s, path, Text(before, None))
    requires Content(s.fs, path) == before && before.Some?
    ensures Stepped(s, path, Text(before, None), budget, recovery, PublishText(path, before, None, recovery, s, budget))
  {
    FileIsLeaf(s.fs, path);
    RemovalKeepsTree(s.fs, path);
    assert PublishText(path, before, None, recovery, s, budget) == Do(path, Remove, Running(s, budget));
    assert path !in s.temps;
  }

  lemma StepPlacement(path: Path, before: Option<string>, text: string, recovery: bool, s: State, budget: nat)
    requires path != [] && Tree(s.fs) && Clear(s.fs, path)
    requires Between(s, path, Text(before, Some(text))) && Pre(s, path, Text(before, Some(text)))
    requires before != Some(text) || !recovery
    requires recovery || path !in s.temps
    ensures Stepped(s, path, Text(before, Some(text)), budget, recovery,
                    PlaceText(path, before, text, recovery, MakeAncestors(path, 0, Running(s, budget))))
  {
    var update := Text(before, Some(text));
    var made := MakeAncestors(path, 0, Running(s, budget));
    MakingAncestors(path, 0, Running(s, budget));
    assert Pre(made.state, path, update) && TempOk(made.state, path, update);
    assert Stuck(made.state, path, update) <==> Stuck(s, path, update);
    if made.Running? {
      PlacingText(path, before, text, recovery, made.state, made.budget);
      HousedElsewhere(s, made.state, PlaceText(path, before, text, recovery, made).state, path, update);
    } else {
      HousedElsewhere(s, made.state, made.state, path, update);
    }
  }

  lemma HousedElsewhere(s: State, housed: State, s': State, path: Path, update: Update)
    requires Publishes(update) && Houses(s, housed, path) && forall x :: x != path ==> SameAt(housed, s', x)
    ensures Elsewhere(s, s', path, update)
  {
    forall x | x != path
      ensures SameAt(s, s', x) || (SameTemp(s, s', x) && NewDirectory(s, s', x) && Publishes(update) && Below(x, path))
    {
      assert SameAt(housed, s', x);
    }
  }

  // ----- removing residue -----

  /** In publication order a removed directory comes after everything removed inside it. */
  lemma ChildrenFirst(order: seq<Path>, adopt: bool, i: nat, j: nat)
    requires Sorted(order, adopt) && i < |order| && j < |order|
    requires Below(order[i], order[j]) && order[i] != IDENTITY && order[j] != IDENTITY
    ensures j < i
  {
    assert !NotAfter(order[i], order[j], adopt);
  }

  lemma AncestorNeverChanges(base: FileSystem, order: seq<Path>, updates: Updates, adopt: bool, s: State, i: nat,
                             x: Path, a: Path)
    requires Plan(base, updates) && Order(order, updates, adopt) && Frontier(base, order, updates, s, i)
    requires x in updates && updates[x].Residual? && Below(a, x) && a != []
    ensures a in s.fs ==> s.fs[a].Directory?
    ensures a !in updates ==> a in s.fs
  {
    assert Pre(State(base, map[]), x, updates[x]);
    AncestorIsDirectory(base, a, x);
    if a in updates {
      assert Pre(State(base, map[]), a, updates[a]);
      var j :| 0 <= j < |order| && order[j] == a;
      assert Pre(s, a, updates[a]) || Post(s, a, updates[a]);
    } else {
      assert Spared(base, updates, s, a);
    }
  }

  /** Above a text to be published there are only directories, old or new. */
  lemma TextIsClear(base: FileSystem, order: seq<Path>, updates: Updates, adopt: bool, s: State, i: nat, x: Path)
    requires Plan(base, updates) && Order(order, updates, adopt) && Frontier(base, order, updates, s, i)
    requires x in updates && updates[x].Text?
    ensures Clear(s.fs, x)
  {
    forall a | a in s.fs && a != [] && Below(a, x) ensures s.fs[a].Directory? {
      assert a !in updates;
      assert Spared(base, updates, s, a);
    }
  }

  lemma AncestorsNeverChange(base: FileSystem, order: seq<Path>, updates: Updates, adopt: bool, s: State, i: nat,
                             x: Path, n: nat)
    requires Plan(base, updates) && Order(order, updates, adopt) && Frontier(base, order, updates, s, i)
    requires x in updates && updates[x].Residual? && n <= |x|
    ensures CheckAncestors(s.fs, x, n) != Changed
    ensures (forall a :: a in updates && Below(a, x) && a != [] ==> a in s.fs) ==> CheckAncestors(s.fs, x, n) == Present
    decreases |x| - n
  {
    if n < |x| - 1 {
      AncestorNeverChanges(base, order, updates, adopt, s, i, x, x[..n + 1]);
      AncestorsNeverChange(base, order, updates, adopt, s, i, x, n + 1);
    }
  }

  lemma AncestorsPresent(base: FileSystem, order: seq<Path>, updates: Updates, adopt: bool, s: State, i: nat)
    requires Plan(base, updates) && Order(order, updates, adopt) && Frontier(base, order, updates, s, i)
    requires i < |order| && updates[order[i]].Residual?
    ensures CheckAncestors(s.fs, order[i], 0) == Present
  {
    var x := order[i];
    forall a | a in updates && Below(a, x) && a != [] ensures a in s.fs {
      AncestorInPlace(base, order, updates, adopt, s, i, a);
    }
    AncestorsNeverChange(base, order, updates, adopt, s, i, x, 0);
  }

  lemma AncestorInPlace(base: FileSystem, order: seq<Path>, updates: Updates, adopt: bool, s: State, i: nat, a: Path)
    requires Plan(base, updates) && Order(order, updates, adopt) && Frontier(base, order, updates, s, i)
    requires i < |order| && updates[order[i]].Residual? && a in updates && Below(a, order[i]) && a != []
    ensures a in s.fs
  {
    var j :| 0 <= j < |order| && order[j] == a;
    AncestorIsDirectory(base, a, order[i]);
    assert Pre(State(base, map[]), a, updates[a]);
    ChildrenFirst(order, adopt, j, i);
    assert Untouched(s, order[j], updates[order[j]]);
  }

  /** Nothing is left below it: what was observed there is removed, and nothing was made there. */
  lemma ContentsGone(base: FileSystem, order: seq<Path>, updates: Updates, adopt: bool, s: State, i: nat, y: Path)
    requires Plan(base, updates) && Order(order, updates, adopt) && Frontier(base, order, updates, s, i)
    requires i < |order| && updates[order[i]].Residual? && Below(order[i], y)
    ensures y !in s.fs
  {
    if y in updates {
      assert updates[y].Residual?;
      var j :| 0 <= j < |order| && order[j] == y;
      ChildrenFirst(order, adopt, i, j);
      assert Settled(s, order[j], updates[order[j]]);
    } else {
      assert y !in base && Spared(base, updates, s, y);
      if y in s.fs {
        var path :| path in updates && Publishes(updates[path]) && Below(y, path);
        assert Below(order[i], path);
      }
    }
  }

  /** When its turn comes a directory is empty and its ancestors are in place. */
  lemma ReadyToRemove(base: FileSystem, order: seq<Path>, updates: Updates, adopt: bool, s: State, i: nat)
    requires Plan(base, updates) && Order(order, updates, adopt) && Frontier(base, order, updates, s, i)
    requires i < |order| && updates[order[i]].Residual?
    ensures CheckAncestors(s.fs, order[i], 0) == Present && EmptyDirectory(s.fs, order[i])
  {
    AncestorsPresent(base, order, updates, adopt, s, i);
    forall y | y in s.fs ensures !Below(order[i], y) {
      if Below(order[i], y) {
        ContentsGone(base, order, updates, adopt, s, i, y);
      }
    }
  }

  lemma StepResidue(base: FileSystem, order: seq<Path>, updates: Updates, adopt: bool, s: State, i: nat,
                    recovery: bool, budget: nat)
    requires Plan(base, updates) && Order(order, updates, adopt) && Frontier(base, order, updates, s, i)
    requires i < |order| && updates[order[i]].Residual?
    requires recovery || Untouched(s, order[i], updates[order[i]])
    ensures Stepped(s, order[i], updates[order[i]], budget, recovery,
                    PublishResidue(order[i], updates[order[i]].before_, recovery, s, budget))
  {
    ReadyToRemove(base, order, updates, adopt, s, i);
    RemovalKeepsTree(s.fs, order[i]);
    RemoveIsAStep(s, order[i], updates[order[i]].before_, recovery, budget);
  }

  lemma RemoveIsAStep(s: State, path: Path, expected: Node, recovery: bool, budget: nat)
    requires Between(s, path, Residual(expected)) && (recovery || Untouched(s, path, Residual(expected)))
    requires RemovalPath(path) && CheckAncestors(s.fs, path, 0) == Present && EmptyDirectory(s.fs, path)
    requires Tree(s.fs) && Tree(s.fs - {path})
    ensures Stepped(s, path, Residual(expected), budget, recovery, PublishResidue(path, expected, recovery, s, budget))
  {
    RemoveOrSkip(s, path, expected, recovery, budget);
    RemovedIsAStep(s, path, expected, recovery, budget, PublishResidue(path, expected, recovery, s, budget));
  }

  lemma RemoveOrSkip(s: State, path: Path, expected: Node, recovery: bool, budget: nat)
    requires Between(s, path, Residual(expected)) && (recovery || Untouched(s, path, Residual(expected)))
    requires RemovalPath(path) && CheckAncestors(s.fs, path, 0) == Present && EmptyDirectory(s.fs, path)
    ensures PublishResidue(path, expected, recovery, s, budget)
         == if path in s.fs then Do(path, Remove, Running(s, budget)) else Running(s, budget)
  {
  }

  lemma RemovedIsAStep(s: State, path: Path, expected: Node, recovery: bool, budget: nat, p: Progress)
    requires Between(s, path, Residual(expected)) && Tree(s.fs) && Tree(s.fs - {path})
    requires p == if path in s.fs then Do(path, Remove, Running(s, budget)) else Running(s, budget)
    ensures Stepped(s, path, Residual(expected), budget, recovery, p)
  {
  }

  // ----- the frontier moves forward only -----

  /** A step at one path leaves every other updated path alone. */
  lemma OthersStay(base: FileSystem, updates: Updates, s: State, s': State, path: Path, other: Path)
    requires Plan(base, updates) && path in updates && other in updates && other != path
    requires Elsewhere(s, s', path, updates[path])
    ensures SameAt(s, s', other)
  {
  }

  lemma RestStaysSpared(base: FileSystem, updates: Updates, s: State, s': State, path: Path, x: Path)
    requires path in updates && x !in updates && Elsewhere(s, s', path, updates[path]) && Spared(base, updates, s, x)
    ensures Spared(base, updates, s', x)
  {
    if SameAt(s, s', x) {
    } else {
      assert NewDirectory(s, s', x) && Publishes(updates[path]) && Below(x, path);
    }
  }

  lemma OrderStays(order: seq<Path>, updates: Updates, s: State, s': State, i: nat)
    requires forall path :: path in order ==> path in updates
    requires i < |order| && forall j :: 0 <= j < |order| && j != i ==> SameAt(s, s', order[j])
    ensures forall j :: 0 <= j < i && Settled(s, order[j], updates[order[j]]) ==>
      Settled(s', order[j], updates[order[j]])
    ensures forall j :: i < j < |order| && Untouched(s, order[j], updates[order[j]]) ==>
      Untouched(s', order[j], updates[order[j]])
  {
  }

  lemma FrontierMoves(base: FileSystem, order: seq<Path>, updates: Updates, adopt: bool, s: State, s': State, i: nat)
    requires Plan(base, updates) && Order(order, updates, adopt) && Frontier(base, order, updates, s, i) && i < |order|
    requires Elsewhere(s, s', order[i], updates[order[i]]) && Between(s', order[i], updates[order[i]]) && Tree(s'.fs)
    ensures Frontier(base, order, updates, s', i)
    ensures Settled(s', order[i], updates[order[i]]) ==> Frontier(base, order, updates, s', i + 1)
  {
    forall j | 0 <= j < |order| && j != i ensures SameAt(s, s', order[j]) {
      OthersStay(base, updates, s, s', order[i], order[j]);
    }
    OrderStays(order, updates, s, s', i);
    forall x | x !in updates ensures Spared(base, updates, s', x) {
      RestStaysSpared(base, updates, s, s', order[i], x);
    }
  }

  lemma StepOne(base: FileSystem, order: seq<Path>, updates: Updates, adopt: bool, s: State, i: nat, recovery: bool,
                budget: nat)
    requires Plan(base, updates) && Order(order, updates, adopt) && Frontier(base, order, updates, s, i)
    requires i < |order| && (recovery || Untouched(s, order[i], updates[order[i]]))
    ensures var p := PublishOne(order[i], updates, recovery, Running(s, budget));
            && Stepped(s, order[i], updates[order[i]], budget, recovery, p)
            && Frontier(base, order, updates, p.state, i)
            && (p.Running? ==> Frontier(base, order, updates, p.state, i + 1))
  {
    var p := PublishOne(order[i], updates, recovery, Running(s, budget));
    match updates[order[i]] {
      case Text(before, after) =>
        TextIsClear(base, order, updates, adopt, s, i, order[i]);
        StepText(order[i], before, after, recovery, s, budget);
      case Residual(_) => StepResidue(base, order, updates, adopt, s, i, recovery, budget);
    }
    FrontierMoves(base, order, updates, adopt, s, p.state, i);
  }

  /** What publishing the rest of the order does: the frontier moves on, and the call ends
      with every path published, out of budget, or stuck at a torn temporary. */
  ghost predicate Published(base: FileSystem, order: seq<Path>, updates: Updates, i: nat, recovery: bool,
                            budget: nat, p: Progress, k: nat)
    requires forall path :: path in order ==> path in updates
  {
    && i <= k <= |order| && Frontier(base, order, updates, p.state, k)
    && (p.Running? ==> k == |order|)
    && (p.Halted? ==>
          || (p.failure == Crashed && budget < TotalCost(order[i..]))
          || (recovery && k < |order| && p.failure == Refused(order[k]) && Stuck(p.state, order[k], updates[order[k]])))
  }

  lemma {:induction false} PublishRest(base: FileSystem, order: seq<Path>, updates: Updates, adopt: bool, s: State,
                                       i: nat,
                                       recovery: bool, budget: nat) returns (k: nat)
    requires Plan(base, updates) && Order(order, updates, adopt) && Frontier(base, order, updates, s, i)
    requires recovery || (i < |order| ==> Untouched(s, order[i], updates[order[i]]))
    ensures Published(base, order, updates, i, recovery, budget,
                      PublishAll(order[i..], updates, recovery, Running(s, budget)), k)
    decreases |order| - i
  {
    k := i;
    if i < |order| {
      var p := PublishOne(order[i], updates, recovery, Running(s, budget));
      StepOne(base, order, updates, adopt, s, i, recovery, budget);
      assert order[i..][1..] == order[i + 1..];
      if p.Running? {
        if i + 1 < |order| {
          StaysUntouched(base, updates, s, p.state, order[i], order[i + 1]);
        }
        k := PublishRest(base, order, updates, adopt, p.state, i + 1, recovery, p.budget);
      } else {
        HaltedStays(order[i + 1..], updates, recovery, p);
      }
    }
  }

  lemma StaysUntouched(base: FileSystem, updates: Updates, s: State, s': State, path: Path, other: Path)
    requires Plan(base, updates) && path in updates && other in updates && other != path
    requires Elsewhere(s, s', path, updates[path]) && Untouched(s, other, updates[other])
    ensures Untouched(s', other, updates[other])
  {
    OthersStay(base, updates, s, s', path, other);
  }

  lemma {:induction false} HaltedStays(order: seq<Path>, updates: Updates, recovery: bool, p: Progress)
    requires p.Halted? && forall path :: path in order ==> path in updates
    ensures PublishAll(order, updates, recovery, p) == p
  {
    if order != [] {
      HaltedStays(order[1..], updates, recovery, p);
    }
  }

  /** Recovery passes over what is already published without an operation. */
  lemma SkipSettled(base: FileSystem, order: seq<Path>, updates: Updates, adopt: bool, s: State, i: nat, j: nat,
                    budget: nat)
    requires Plan(base, updates) && Order(order, updates, adopt) && Frontier(base, order, updates, s, i)
    requires j < i
    ensures PublishOne(order[j], updates, true, Running(s, budget)) == Running(s, budget)
  {
    assert Settled(s, order[j], updates[order[j]]);
    if updates[order[j]].Residual? {
      AncestorsNeverChange(base, order, updates, adopt, s, i, order[j], 0);
    }
  }

  lemma {:induction false} SkipPrefix(base: FileSystem, order: seq<Path>, updates: Updates, adopt: bool, s: State,
                                      i: nat, j: nat, budget: nat)
    requires Plan(base, updates) && Order(order, updates, adopt) && Frontier(base, order, updates, s, i)
    requires j <= i
    ensures PublishAll(order[j..], updates, true, Running(s, budget))
      == PublishAll(order[i..], updates, true, Running(s, budget))
    decreases i - j
  {
    if j < i {
      SkipSettled(base, order, updates, adopt, s, i, j, budget);
      assert order[j..][1..] == order[j + 1..];
      SkipPrefix(base, order, updates, adopt, s, i, j + 1, budget);
    }
  }

  // ----- crashes, recoveries and what holds through all of them -----

  /** The first publication and any number of recoveries, each stopped by its own budget. */
  function Rounds(base: FileSystem, order: seq<Path>, updates: Updates, budgets: seq<nat>): State
    requires forall path :: path in order ==> path in updates
  {
    if budgets == [] then State(base, map[])
    else
      var n := |budgets| - 1;
      PublishAll(order, updates, n > 0, Running(Rounds(base, order, updates, budgets[..n]), budgets[n])).state
  }

  lemma StartIsFrontier(base: FileSystem, order: seq<Path>, updates: Updates, adopt: bool)
    requires Plan(base, updates) && Order(order, updates, adopt)
    ensures Frontier(base, order, updates, State(base, map[]), 0)
    ensures forall path :: path in updates ==> Untouched(State(base, map[]), path, updates[path])
  {
  }

  lemma RecoverFrom(base: FileSystem, order: seq<Path>, updates: Updates, adopt: bool, s: State, i: nat, budget: nat)
    returns (k: nat)
    requires Plan(base, updates) && Order(order, updates, adopt) && Frontier(base, order, updates, s, i)
    ensures Published(base, order, updates, i, true, budget, PublishAll(order, updates, true, Running(s, budget)), k)
  {
    assert order[0..] == order;
    SkipPrefix(base, order, updates, adopt, s, i, 0, budget);
    k := PublishRest(base, order, updates, adopt, s, i, true, budget);
  }

  lemma {:induction false} RoundsKeepFrontier(base: FileSystem, order: seq<Path>, updates: Updates, adopt: bool,
                                              budgets: seq<nat>) returns (k: nat)
    requires Plan(base, updates) && Order(order, updates, adopt)
    ensures Frontier(base, order, updates, Rounds(base, order, updates, budgets), k)
    decreases |budgets|
  {
    StartIsFrontier(base, order, updates, adopt);
    var n := |budgets| - 1;
    if budgets == [] {
      k := 0;
    } else if n == 0 {
      assert budgets[..0] == [] && order[0..] == order;
      k := PublishRest(base, order, updates, adopt, State(base, map[]), 0, false, budgets[0]);
    } else {
      var i := RoundsKeepFrontier(base, order, updates, adopt, budgets[..n]);
      k := RecoverFrom(base, order, updates, adopt, Rounds(base, order, updates, budgets[..n]), i, budgets[n]);
    }
  }

  /** After any crashes and recoveries every updated path holds its exact preimage or its
      exact postimage.  Whatever else was observed has not changed, and whatever else is new is a
      directory above a published text; the result is a tree. */
  lemma ExactImages(base: FileSystem, order: seq<Path>, updates: Updates, adopt: bool, budgets: seq<nat>, path: Path)
    requires Plan(base, updates) && Order(order, updates, adopt)
    ensures var s := Rounds(base, order, updates, budgets);
      && Tree(s.fs)
      && if path in updates then Pre(s, path, updates[path]) || Post(s, path, updates[path])
         else if path in base then path in s.fs && s.fs[path] == base[path]
         else path in s.fs ==> s.fs[path].Directory? && AboveText(updates, path)
  {
    var s := Rounds(base, order, updates, budgets);
    var k := RoundsKeepFrontier(base, order, updates, adopt, budgets);
    if path in updates {
      var j :| 0 <= j < |order| && order[j] == path;
    } else {
      assert Spared(base, updates, s, path);
    }
  }

  /** Of two updates the earlier one has its postimage or the later one its preimage. */
  lemma EarlierFirst(base: FileSystem, order: seq<Path>, updates: Updates, s: State, k: nat, m: nat, j: nat)
    requires forall path :: path in order ==> path in updates
    requires Frontier(base, order, updates, s, k) && m < j < |order|
    ensures Post(s, order[m], updates[order[m]]) || Pre(s, order[j], updates[order[j]])
  {
    if k < j {
      assert Untouched(s, order[j], updates[order[j]]);
    } else {
      assert Settled(s, order[m], updates[order[m]]);
    }
  }

  /** The identity is last when adopting and first otherwise. */
  lemma IdentityPosition(order: seq<Path>, adopt: bool, m: nat, j: nat)
    requires Sorted(order, adopt) && m < |order| && j < |order| && m != j
    requires order[m] == IDENTITY && order[j] != IDENTITY
    ensures if adopt then j < m else m < j
  {
    assert !NotAfter(order[m], order[j], adopt) || !NotAfter(order[j], order[m], adopt);
  }

  /** Adopting: the identity file leaves its preimage only when every other path has its
      postimage.  Removing: no path leaves its preimage before the identity is gone. */
  lemma IdentityBarrier(base: FileSystem, order: seq<Path>, updates: Updates, adopt: bool, budgets: seq<nat>,
                        path: Path)
    requires Plan(base, updates) && Order(order, updates, adopt)
    requires IDENTITY in updates && path in updates && path != IDENTITY
    ensures var s := Rounds(base, order, updates, budgets);
            && (adopt ==> Pre(s, IDENTITY, updates[IDENTITY]) || Post(s, path, updates[path]))
            && (!adopt ==> Pre(s, path, updates[path]) || Post(s, IDENTITY, updates[IDENTITY]))
  {
    var s := Rounds(base, order, updates, budgets);
    var k := RoundsKeepFrontier(base, order, updates, adopt, budgets);
    var m: nat :| m < |order| && order[m] == IDENTITY;
    var j: nat :| j < |order| && order[j] == path;
    IdentityPosition(order, adopt, m, j);
    if adopt {
      EarlierFirst(base, order, updates, s, k, j, m);
    } else {
      EarlierFirst(base, order, updates, s, k, m, j);
    }
  }

  /** `view` admits a recovery when each path is at one of its two exact images. */
  ghost predicate RecoveryAdmitted(updates: Updates, s: State) {
    forall path :: path in updates ==>
      match updates[path]
      case Text(before, after) => Readable(s.fs, path) && Content(s.fs, path) in [before, after]
      case Residual(expected) => path in s.fs ==> s.fs[path] == expected
  }

  ghost predicate AllPublished(updates: Updates, s: State) {
    forall path :: path in updates ==> Post(s, path, updates[path])
  }

  ghost predicate SomeStuck(updates: Updates, s: State) {
    exists path :: path in updates && Stuck(s, path, updates[path])
  }

  /** From any such state a recovery is admitted, and one that is not interrupted publishes
      every path exactly when no unpublished path has a torn temporary. */
  lemma RecoveryCompletes(base: FileSystem, order: seq<Path>, updates: Updates, adopt: bool, budgets: seq<nat>,
                          budget: nat)
    requires Plan(base, updates) && Order(order, updates, adopt) && budget >= TotalCost(order)
    ensures var s := Rounds(base, order, updates, budgets);
            var p := PublishAll(order, updates, true, Running(s, budget));
            && RecoveryAdmitted(updates, s)
            && (p.Running? <==> !SomeStuck(updates, s))
            && (p.Running? ==> AllPublished(updates, p.state))
  {
    var s := Rounds(base, order, updates, budgets);
    var i := RoundsKeepFrontier(base, order, updates, adopt, budgets);
    FrontierIsAdmitted(base, order, updates, adopt, s, i);
    StuckIsAtTheFrontier(base, order, updates, adopt, s, i, budget);
    var k := RecoverFrom(base, order, updates, adopt, s, i, budget);
    if k == |order| {
      LastFrontierIsPublished(base, order, updates, adopt, PublishAll(order, updates, true, Running(s, budget)).state);
    }
  }

  lemma FrontierIsAdmitted(base: FileSystem, order: seq<Path>, updates: Updates, adopt: bool, s: State, i: nat)
    requires Order(order, updates, adopt) && Frontier(base, order, updates, s, i)
    ensures RecoveryAdmitted(updates, s)
  {
    forall path | path in updates ensures Between(s, path, updates[path]) {
      var j :| 0 <= j < |order| && order[j] == path;
    }
  }

  lemma LastFrontierIsPublished(base: FileSystem, order: seq<Path>, updates: Updates, adopt: bool, s: State)
    requires Order(order, updates, adopt) && Frontier(base, order, updates, s, |order|)
    ensures AllPublished(updates, s)
  {
    forall path | path in updates ensures Post(s, path, updates[path]) {
      var j :| 0 <= j < |order| && order[j] == path;
      assert Settled(s, order[j], updates[order[j]]);
    }
  }

  /** Only the frontier can be stuck, and then the recovery refuses at once. */
  lemma StuckIsAtTheFrontier(base: FileSystem, order: seq<Path>, updates: Updates, adopt: bool, s: State, i: nat,
                             budget: nat)
    requires Plan(base, updates) && Order(order, updates, adopt) && Frontier(base, order, updates, s, i)
    ensures var p := PublishAll(order, updates, true, Running(s, budget));
            && (SomeStuck(updates, s) ==> p.Halted?)
            && (budget >= TotalCost(order) && p.Halted? ==> SomeStuck(updates, s))
  {
    assert order[0..] == order && order[|order|..] == [];
    SkipPrefix(base, order, updates, adopt, s, i, 0, budget);
    if SomeStuck(updates, s) {
      var path :| path in updates && Stuck(s, path, updates[path]);
      var j :| 0 <= j < |order| && order[j] == path;
      assert j == i;
      StuckHalts(base, order, updates, adopt, s, i, budget);
    } else if i < |order| && budget >= TotalCost(order) {
      CostOfSuffix(order, i);
      assert !Stuck(s, order[i], updates[order[i]]);
      NotStuckProceeds(base, order, updates, adopt, s, i, budget);
    }
  }

  lemma {:induction false} CostOfSuffix(order: seq<Path>, i: nat)
    requires i <= |order|
    ensures TotalCost(order[i..]) <= TotalCost(order)
  {
    if i == 0 {
      assert order[0..] == order;
    } else {
      CostOfRest(order, i - 1);
      CostOfSuffix(order, i - 1);
    }
  }

  lemma StuckHalts(base: FileSystem, order: seq<Path>, updates: Updates, adopt: bool, s: State, i: nat, budget: nat)
    requires Plan(base, updates) && Order(order, updates, adopt) && Frontier(base, order, updates, s, i)
    requires i < |order| && Stuck(s, order[i], updates[order[i]])
    ensures PublishAll(order[i..], updates, true, Running(s, budget)).Halted?
  {
    StepOne(base, order, updates, adopt, s, i, true, budget);
    PublishFirst(order, updates, i, s, budget);
    HaltedStays(order[i + 1..], updates, true, PublishOne(order[i], updates, true, Running(s, budget)));
  }

  lemma PublishFirst(order: seq<Path>, updates: Updates, i: nat, s: State, budget: nat)
    requires i < |order| && forall path :: path in order ==> path in updates
    ensures PublishAll(order[i..], updates, true, Running(s, budget))
         == PublishAll(order[i + 1..], updates, true, PublishOne(order[i], updates, true, Running(s, budget)))
  {
    assert order[i..][0] == order[i] && order[i..][1..] == order[i + 1..];
  }

  lemma {:induction false} NotStuckProceeds(base: FileSystem, order: seq<Path>, updates: Updates, adopt: bool,
                                            s: State, i: nat, budget: nat)
    requires Plan(base, updates) && Order(order, updates, adopt) && Frontier(base, order, updates, s, i)
    requires i < |order| && !Stuck(s, order[i], updates[order[i]]) && budget >= TotalCost(order[i..])
    ensures PublishAll(order[i..], updates, true, Running(s, budget)).Running?
    decreases |order| - i
  {
    var p := NextRuns(base, order, updates, adopt, s, i, budget);
    if i + 1 < |order| {
      NotStuckProceeds(base, order, updates, adopt, p.state, i + 1, p.budget);
    }
  }

  lemma NextRuns(base: FileSystem, order: seq<Path>, updates: Updates, adopt: bool, s: State, i: nat, budget: nat)
    returns (p: Progress)
    requires Plan(base, updates) && Order(order, updates, adopt) && Frontier(base, order, updates, s, i)
    requires i < |order| && !Stuck(s, order[i], updates[order[i]]) && budget >= TotalCost(order[i..])
    ensures p.Running? && p.budget >= TotalCost(order[i + 1..]) && Frontier(base, order, updates, p.state, i + 1)
    ensures i + 1 < |order| ==> !Stuck(p.state, order[i + 1], updates[order[i + 1]])
    ensures PublishAll(order[i..], updates, true, Running(s, budget)) == PublishAll(order[i + 1..], updates, true, p)
  {
    p := PublishOne(order[i], updates, true, Running(s, budget));
    StepOne(base, order, updates, adopt, s, i, true, budget);
    CostOfRest(order, i);
    PublishFirst(order, updates, i, s, budget);
    NotStuckRuns(s, order[i], updates[order[i]], budget, p);
    if i + 1 < |order| {
      StaysUntouched(base, updates, s, p.state, order[i], order[i + 1]);
    }
  }

  lemma NotStuckRuns(s: State, path: Path, update: Update, budget: nat, p: Progress)
    requires Stepped(s, path, update, budget, true, p) && !Stuck(s, path, update) && budget >= Cost(path)
    ensures p.Running? && p.budget + Cost(path) >= budget
  {
  }

  /** That happens: a first publication that crashes right after opening its temporary leaves it
      torn, and no recovery gets past it. */
  lemma StuckIsReachable(budget: nat)
    ensures var updates: Updates := map[["a"] := Text(None, Some("x"))];
      && Plan(map[], updates) && Order([["a"]], updates, true)
      && var s := Rounds(map[], [["a"]], updates, [1]);
         SomeStuck(updates, s) && PublishAll([["a"]], updates, true, Running(s, budget)).Halted?
  {
    var path: Path := ["a"];
    var updates: Updates := map[path := Text(None, Some("x"))];
    var s := State(map[], map[path := Torn]);
    assert [1][..0] == [] && [path][1..] == [];
    assert Rounds(map[], [path], updates, []) == State(map[], map[]);
    assert PublishOne(path, updates, false, Running(State(map[], map[]), 1)) == Halted(s, Crashed);
    HaltedStays([], updates, false, Halted(s, Crashed));
    assert Rounds(map[], [path], updates, [1]) == s;
    assert Stuck(s, path, updates[path]);
    assert PublishOne(path, updates, true, Running(s, budget)) == Halted(s, Refused(path));
    HaltedStays([], updates, true, Halted(s, Refused(path)));
  }

  /** A finished publication is left alone: repeating the recovery spends nothing and
      changes nothing, whatever its budget. */
  lemma RecoveryIsIdempotent(base: FileSystem, order: seq<Path>, updates: Updates, adopt: bool, budgets: seq<nat>,
                             budget: nat)
    requires Plan(base, updates) && Order(order, updates, adopt)
    requires AllPublished(updates, Rounds(base, order, updates, budgets))
    ensures var s := Rounds(base, order, updates, budgets);
            PublishAll(order, updates, true, Running(s, budget)) == Running(s, budget)
  {
    var s := Rounds(base, order, updates, budgets);
    var i := RoundsKeepFrontier(base, order, updates, adopt, budgets);
    assert forall j :: 0 <= j < |order| ==> Settled(s, order[j], updates[order[j]]);
    assert Frontier(base, order, updates, s, |order|);
    assert order[0..] == order && order[|order|..] == [];
    SkipPrefix(base, order, updates, adopt, s, |order|, 0, budget);
  }

  // ----- the plan an inventory supplies -----

  lemma NoOwnedBelow(base: FileSystem, rows: seq<Row>, x: Path, y: Path)
    requires Residue(base, rows, x) && base[x].Directory? && Below(x, y)
    ensures !Covered(rows, y)
  {
    forall k | 0 <= k < |rows| ensures !Covers(rows[k], y) {
      var declared := rows[k].path;
      assert !Covers(rows[k], x) && !Below(x, declared);
      if declared <= y {
        assert |declared| <= |x| ==> declared <= x;
        assert |x| <= |declared| ==> x <= declared;
      }
    }
  }

  /** The updates remove exactly the residue an inventory found, and otherwise publish text
      at owned paths, or outside the enclave, that no observed file and no other published text
      stands in the way of. */
  ghost predicate FromInventory(base: FileSystem, rows: seq<Row>, updates: Updates) {
    && Tree(base) && Valid(rows) && rows != [] && Covered(rows, IDENTITY) && [] !in updates
    && (ROOT in base ==> base[ROOT].Directory?)
    && (forall x :: x in base ==> PlainPath(x))
    && (forall x :: x in updates && updates[x].Residual? <==> ROOT <= x && Residue(base, rows, x))
    && (forall x :: x in updates ==> Pre(State(base, map[]), x, updates[x]))
    && (forall x :: x in updates && updates[x].Text? ==> Covered(rows, x) || !(ROOT <= x))
    && (forall x, a :: x in updates && updates[x].Text? && a in base && Below(a, x) ==> base[a].Directory?)
    && (forall x, y :: x in updates && updates[x].Text? && y in updates && updates[y].Text? ==> !Below(x, y))
  }

  predicate PlainPath(path: Path) {
    forall k :: 0 <= k < |path| ==> path[k] !in ["", ".", ".."]
  }

  lemma ResidueIsRemovable(base: FileSystem, rows: seq<Row>, updates: Updates, x: Path)
    requires FromInventory(base, rows, updates) && x in updates && updates[x].Residual?
    ensures RemovalPath(x) && x != IDENTITY
  {
    assert ROOT <= x && Residue(base, rows, x) && PlainPath(x);
    assert Above(rows, ROOT) by {
      assert WellFormed(rows[0]) && Below(ROOT, rows[0].path);
    }
    assert x != ROOT;
  }

  lemma NoTextBelow(base: FileSystem, rows: seq<Row>, updates: Updates, x: Path, y: Path)
    requires FromInventory(base, rows, updates) && x in updates && updates[x].Residual?
    requires y in updates && updates[y].Text?
    ensures !Below(x, y)
  {
    if Below(x, y) {
      assert ROOT <= x && Residue(base, rows, x) && base[x].Directory?;
      NoOwnedBelow(base, rows, x, y);
      assert false;
    }
  }

  lemma InventoryGivesPlan(base: FileSystem, rows: seq<Row>, updates: Updates)
    requires FromInventory(base, rows, updates)
    ensures Plan(base, updates)
  {
    forall x | x in updates && updates[x].Residual? ensures RemovalPath(x) && x != IDENTITY {
      ResidueIsRemovable(base, rows, updates, x);
    }
    forall x, y | x in updates && updates[x].Residual? && y in base && Below(x, y)
      ensures y in updates && updates[y].Residual?
    {
      ResidueIsClosed(base, rows, x, y);
      assert ROOT <= y && Residue(base, rows, y);
    }
    forall x, y | x in updates && y in updates && updates[y].Text? ensures !Below(x, y) {
      if updates[x].Residual? {
        NoTextBelow(base, rows, updates, x, y);
      }
    }
  }

  // ----- the barrier, in every state -----

  /** Making ancestors, whatever is there, adds directories above the path and nothing else. */
  lemma {:induction false} MakingHouses(path: Path, n: nat, p: Progress)
    requires n <= |path|
    ensures Houses(p.state, MakeAncestors(path, n, p).state, path)
    decreases |path| - n
  {
    if p.Running? && n + 1 < |path| {
      var ancestor := path[..n + 1];
      assert ancestor != [] && Below(ancestor, path);
      if ancestor !in p.state.fs {
        var next := Do(ancestor, MakeDirectory, p);
        MakingHouses(path, n + 1, next);
        HousesTransitive(p.state, next.state, MakeAncestors(path, n + 1, next).state, path);
      } else if p.state.fs[ancestor].Directory? {
        MakingHouses(path, n + 1, p);
      }
    }
  }

  /** What a call may have done to one path, whatever the state: nothing; it removed its exact
      preimage; it put the admitted text over its exact preimage; or a directory above a published
      text has come where nothing, or something removed, was. */
  ghost predicate Allowed(s: State, s': State, order: seq<Path>, updates: Updates, x: Path) {
    var barred := x !in order || x !in updates || !Pre(s, x, updates[x]);
    || ((x in s.fs <==> x in s'.fs) && (x in s.fs ==> s'.fs[x] == s.fs[x]))
    || (!barred && x !in s'.fs)
    || (!barred && Publishes(updates[x]) && x in s'.fs && s'.fs[x] == Regular(updates[x].after.value))
    || (x in s'.fs && s'.fs[x].Directory? && AboveText(updates, x) && (x in s.fs ==> !barred))
  }

  /** Does this path hold one of the images a call may go on from? */
  ghost predicate Admissible(s: State, path: Path, update: Update, recovery: bool) {
    Pre(s, path, update) || (recovery && Post(s, path, update))
  }

  /** A text is replaced, made or removed only over its exact preimage; otherwise, unless a recovery
      finds it published, the call refuses and has done nothing. */
  lemma TextBarrier(path: Path, before: Option<string>, after: Option<string>, recovery: bool, s: State, budget: nat)
    ensures var update, p := Text(before, after), PublishText(path, before, after, recovery, s, budget);
      && (!Admissible(s, path, update, recovery) ==> p == Halted(s, Refused(path)))
      && (p.state != s ==> Pre(s, path, update))
  {
  }

  /** A temporary that is not the whole admitted text, or any temporary in a first publication, is
      left alone, and so is the path. */
  lemma TemporaryBarrier(path: Path, before: Option<string>, text: string, recovery: bool, s: State, budget: nat)
    requires path in s.temps && (s.temps[path] != Whole(text) || !recovery)
    requires !(recovery && Post(s, path, Text(before, Some(text))))
    ensures var p := PublishText(path, before, Some(text), recovery, s, budget);
      p.Halted? && Houses(s, p.state, path)
  {
    MakingHouses(path, 0, Running(s, budget));
  }

  lemma {:induction false} PresentMeans(fs: FileSystem, path: Path, n: nat)
    requires n <= |path|
    ensures CheckAncestors(fs, path, n) == Present <==>
      forall k :: n < k < |path| ==> path[..k] in fs && fs[path[..k]].Directory?
    decreases |path| - n
  {
    if n < |path| - 1 {
      PresentMeans(fs, path, n + 1);
    }
  }

  lemma ObservedIsPresent(fs: FileSystem, path: Path)
    requires Tree(fs) && path in fs && path != []
    ensures CheckAncestors(fs, path, 0) == Present
  {
    PresentMeans(fs, path, 0);
    forall k | 0 < k < |path| ensures path[..k] in fs && fs[path[..k]].Directory? {
      AncestorIsDirectory(fs, path[..k], path);
    }
  }

  /** A plain path strictly inside the enclave. */
  ghost predicate InsideRoot(path: Path) {
    ROOT < path && "" !in path && "." !in path && ".." !in path
  }

  /** Residue is removed only when it lies plainly inside the enclave, is exactly what was expected,
      empty, and reached through directories; otherwise nothing is done, and in a tree the call
      refuses unless a recovery finds it gone. */
  lemma ResidueBarrier(path: Path, expected: Node, recovery: bool, s: State, budget: nat)
    ensures var p := PublishResidue(path, expected, recovery, s, budget);
      && p.state in {s, s.(fs := s.fs - {path})}
      && (p.state != s ==>
            && Pre(s, path, Residual(expected)) && InsideRoot(path)
            && (expected.Directory? ==> EmptyDirectory(s.fs, path))
            && forall k :: 0 < k < |path| ==> path[..k] in s.fs && s.fs[path[..k]].Directory?)
      && (!InsideRoot(path) ==> p == Halted(s, Refused(path)))
      && ((Tree(s.fs) || !recovery) && !Admissible(s, path, Residual(expected), recovery) ==>
          p == Halted(s, Refused(path)))
  {
    PresentMeans(s.fs, path, 0);
    if Tree(s.fs) && path in s.fs && path != [] {
      ObservedIsPresent(s.fs, path);
    }
  }

  lemma TextIsAllowed(path: Path, updates: Updates, recovery: bool, s: State, budget: nat, x: Path)
    requires path in updates && updates[path].Text?
    ensures var p := PublishText(path, updates[path].before, updates[path].after, recovery, s, budget);
      Allowed(s, p.state, [path], updates, x)
  {
    var Text(before, after) := updates[path];
    TextBarrier(path, before, after, recovery, s, budget);
    if Pre(s, path, updates[path]) && !(recovery && before == after) && after.Some? {
      var made := MakeAncestors(path, 0, Running(s, budget));
      MakingHouses(path, 0, Running(s, budget));
      PlaceIsAllowed(path, before, after.value, recovery, made, x);
      if x != path && x in made.state.fs && x !in s.fs {
        assert Publishes(updates[path]) && Below(x, path);
        assert AboveText(updates, x);
      }
    }
  }

  lemma PlaceIsAllowed(path: Path, current: Option<string>, text: string, recovery: bool, made: Progress, x: Path)
    ensures var s' := PlaceText(path, current, text, recovery, made).state;
      || ((x in made.state.fs <==> x in s'.fs) && (x in made.state.fs ==> s'.fs[x] == made.state.fs[x]))
      || (x == path && x in s'.fs && s'.fs[x] == Regular(text))
  {
  }

  lemma OneIsAllowed(path: Path, updates: Updates, recovery: bool, p: Progress, x: Path)
    requires path in updates
    ensures Allowed(p.state, PublishOne(path, updates, recovery, p).state, [path], updates, x)
  {
    if p.Running? {
      match updates[path] {
        case Text(_, _) => TextIsAllowed(path, updates, recovery, p.state, p.budget, x);
        case Residual(expected) => ResidueBarrier(path, expected, recovery, p.state, p.budget);
      }
    }
  }

  lemma AllowedThen(a: State, b: State, c: State, path: Path, rest: seq<Path>, updates: Updates, x: Path)
    requires path in updates && path !in rest
    requires Allowed(a, b, [path], updates, x) && Allowed(b, c, rest, updates, x)
    ensures Allowed(a, c, [path] + rest, updates, x)
  {
    assert x in [path] + rest <==> x == path || x in rest;
  }

  /** The publication barrier, for every state, budget and recovery, tree or not: no path changes
      but from its exact preimage to its exact postimage, save that directories appear above a
      published text. */
  lemma {:induction false} BarrierHolds(order: seq<Path>, updates: Updates, recovery: bool, p: Progress, x: Path)
    requires forall path :: path in order ==> path in updates
    requires forall i, j :: 0 <= i < j < |order| ==> order[i] != order[j]
    ensures Allowed(p.state, PublishAll(order, updates, recovery, p).state, order, updates, x)
  {
    if order != [] {
      var path, rest := order[0], order[1..];
      var next := PublishOne(path, updates, recovery, p);
      assert forall i :: 0 <= i < |rest| ==> rest[i] == order[i + 1];
      assert order == [path] + rest;
      OneIsAllowed(path, updates, recovery, p, x);
      BarrierHolds(rest, updates, recovery, next, x);
      AllowedThen(p.state, next.state, PublishAll(rest, updates, recovery, next).state, path, rest, updates, x);
    }
  }

  lemma OtherStaysInadmissible(a: State, b: State, path: Path, updates: Updates, recovery: bool, x: Path)
    requires path in updates && x in updates && x != path && Allowed(a, b, [path], updates, x)
    requires updates[x].Text? || x in a.fs
    requires !Admissible(a, x, updates[x], recovery)
    ensures !Admissible(b, x, updates[x], recovery)
    ensures updates[x].Text? || x in b.fs
  {
  }

  lemma ForeignIsRefused(path: Path, updates: Updates, recovery: bool, p: Progress)
    requires path in updates && p.Running? && !Admissible(p.state, path, updates[path], recovery)
    requires updates[path].Text? || !recovery || Tree(p.state.fs)
    ensures PublishOne(path, updates, recovery, p) == Halted(p.state, Refused(path))
  {
    match updates[path] {
      case Text(before, after) => TextBarrier(path, before, after, recovery, p.state, p.budget);
      case Residual(expected) => ResidueBarrier(path, expected, recovery, p.state, p.budget);
    }
  }

  /** A publication that runs to its end found every text at one of its images, and a first one
      found every residue exactly as expected. */
  lemma {:induction false} ForeignStopsPublication(order: seq<Path>, updates: Updates, recovery: bool, p: Progress,
                                                   x: Path)
    requires forall path :: path in order ==> path in updates
    requires forall i, j :: 0 <= i < j < |order| ==> order[i] != order[j]
    requires x in order && !Admissible(p.state, x, updates[x], recovery)
    requires updates[x].Text? || (x in p.state.fs && !recovery)
    ensures PublishAll(order, updates, recovery, p).Halted?
  {
    var path, rest := order[0], order[1..];
    var next := PublishOne(path, updates, recovery, p);
    assert forall i :: 0 <= i < |rest| ==> rest[i] == order[i + 1];
    assert order == [path] + rest;
    if p.Running? && x == path {
      ForeignIsRefused(x, updates, recovery, p);
    }
    if next.Halted? {
      HaltedStays(rest, updates, recovery, next);
    } else {
      OneIsAllowed(path, updates, recovery, p, x);
      OtherStaysInadmissible(p.state, next.state, path, updates, recovery, x);
      ForeignStopsPublication(rest, updates, recovery, next, x);
    }
  }
}
