/** The package enclave (src/core/src/native_enclave.rs): which declarations are admitted,
    and which observed paths an inventory marks for removal.  A path is the sequence of its
    components; a file system maps observed paths to what is there. */
module Enclave {
  import opened Wrappers

  type Path = seq<string>

  datatype Node = Directory | Regular(text: string) | Link(target: string)

  type FileSystem = map<Path, Node>

  datatype Row = Row(path: Path, scope: string, owner: string, class_: string, lifetime: string)

  const ROOT: Path := [".agentic-workspace"]
  const MAX_COUNT := 8192
  const MAX_DEPTH := 32

  predicate Below(ancestor: Path, path: Path) {
    ancestor < path
  }

  /** The row's own path, or anything below it when the row is a subtree. */
  predicate Covers(row: Row, path: Path) {
    path == row.path || (row.scope == "subtree" && Below(row.path, path))
  }

  predicate PlainComponent(part: string) {
    part !in ["", ".", ".."] && '\\' !in part && ':' !in part
  }

  predicate WellFormed(row: Row) {
    && ROOT < row.path
    && (forall k :: 0 <= k < |row.path| ==> PlainComponent(row.path[k]))
    && row.scope in ["exact", "subtree"]
    && row.class_ in ["managed-support", "mutable-state", "customization", "local-only"]
    && row.owner != "" && row.lifetime != ""
  }

  predicate Ambiguous(a: Row, b: Row) {
    Covers(a, b.path) || Covers(b, a.path)
  }

  predicate Valid(rows: seq<Row>) {
    && (forall i :: 0 <= i < |rows| ==> WellFormed(rows[i]))
    && forall i, j :: 0 <= i < j < |rows| ==> !Ambiguous(rows[i], rows[j])
  }

  method Validate(rows: seq<Row>) returns (ok: bool)
    ensures ok <==> Valid(rows)
  {
    for index := 0 to |rows|
      invariant Valid(rows[..index])
    {
      if !WellFormed(rows[index]) {
        return false;
      }
      for other := 0 to index
        invariant forall i :: 0 <= i < other ==> !Ambiguous(rows[i], rows[index])
      {
        if Ambiguous(rows[other], rows[index]) {
          return false;
        }
      }
    }
    assert rows[..|rows|] == rows;
    ok := true;
  }

  /** After validation every path whatever has at most one owner. */
  lemma OneOwner(rows: seq<Row>, path: Path, i: nat, j: nat)
    requires Valid(rows) && i < |rows| && j < |rows|
    requires Covers(rows[i], path) && Covers(rows[j], path)
    ensures i == j
  {
    var a, b := rows[i].path, rows[j].path;
    assert a <= path && b <= path;
    assert |a| <= |b| ==> a <= b;
    assert |b| <= |a| ==> b <= a;
    assert a == b || Below(a, b) || Below(b, a);
    assert Ambiguous(rows[i], rows[j]) && Ambiguous(rows[j], rows[i]);
  }

  // ----- paths as text -----

  /** The text of a path: its components between slashes. */
  function Join(path: Path): string
    requires path != []
  {
    if |path| == 1 then path[0] else path[0] + "/" + Join(path[1..])
  }

  /** No component holds a slash: the path is what splitting its text at slashes gives. */
  ghost predicate Split(path: Path) {
    path != [] && forall k :: 0 <= k < |path| ==> '/' !in path[k]
  }

  lemma SamePart(x: string, s: string, y: string, t: string)
    requires '/' !in x && '/' !in y
    ensures x + "/" + s <= y + "/" + t <==> x == y && s <= t
    ensures x + "/" + s == y + "/" + t <==> x == y && s == t
  {
    var a, b := x + "/" + s, y + "/" + t;
    if a <= b {
      assert a[|x|] == '/' && b[|y|] == '/';
      forall k | 0 <= k < |x| ensures a[k] != '/' { assert a[k] == x[k]; }
      forall k | 0 <= k < |y| ensures b[k] != '/' { assert b[k] == y[k]; }
      assert forall k :: 0 <= k < |a| ==> a[k] == b[k];
      assert x == a[..|x|] == b[..|y|] == y;
      assert s == a[|x| + 1..] && t == b[|x| + 1..];
    }
    if x == y && s <= t {
      assert a == b[..|a|];
    }
  }

  lemma NoPart(x: string, s: string, y: string)
    requires '/' !in y
    ensures !(x + "/" + s <= y)
  {
    assert (x + "/" + s)[|x|] == '/';
  }

  lemma {:induction false} SameText(a: Path, b: Path)
    requires Split(a) && Split(b)
    ensures Join(a) == Join(b) <==> a == b
    decreases |a|
  {
    if |a| > 1 && |b| > 1 {
      SamePart(a[0], Join(a[1..]), b[0], Join(b[1..]));
      SameText(a[1..], b[1..]);
      assert a == [a[0]] + a[1..] && b == [b[0]] + b[1..];
    } else if |a| > 1 {
      NoPart(a[0], Join(a[1..]), b[0]);
    } else if |b| > 1 {
      NoPart(b[0], Join(b[1..]), a[0]);
    } else {
      assert a == [a[0]] && b == [b[0]];
    }
  }

  lemma {:induction false} BelowText(a: Path, b: Path)
    requires Split(a) && Split(b)
    ensures Join(a) + "/" <= Join(b) <==> Below(a, b)
    decreases |a|
  {
    var rest := if |a| == 1 then "" else Join(a[1..]) + "/";
    assert Join(a) + "/" == a[0] + "/" + rest;
    if |b| == 1 {
      NoPart(a[0], rest, b[0]);
    } else {
      SamePart(a[0], rest, b[0], Join(b[1..]));
      if |a| > 1 {
        BelowText(a[1..], b[1..]);
        assert a == [a[0]] + a[1..] && b == [b[0]] + b[1..];
        assert Below(a, b) <==> a[0] == b[0] && Below(a[1..], b[1..]);
      }
    }
  }

  /** A row covers its own text, and as a subtree every text that continues it after a slash. */
  lemma CoversText(row: Row, path: Path)
    requires Split(row.path) && Split(path)
    ensures Covers(row, path) <==>
      Join(path) == Join(row.path) || (row.scope == "subtree" && Join(row.path) + "/" <= Join(path))
  {
    SameText(path, row.path);
    BelowText(row.path, path);
  }

  lemma {:induction false} CharText(path: Path, c: char)
    requires path != [] && c != '/'
    ensures c in Join(path) <==> exists k :: 0 <= k < |path| && c in path[k]
  {
    if |path| > 1 {
      CharText(path[1..], c);
      assert forall k :: 0 <= k < |path| - 1 ==> path[1..][k] == path[k + 1];
      if k :| 0 <= k < |path| && c in path[k] {
        assert k > 0 ==> path[1..][k - 1] == path[k];
      }
    }
  }

  /** The rows a declaration may make, on their texts. */
  lemma WellFormedText(row: Row)
    requires Split(row.path)
    ensures WellFormed(row) <==>
      && ".agentic-workspace/" <= Join(row.path) && '\\' !in Join(row.path) && ':' !in Join(row.path)
      && "" !in row.path && "." !in row.path && ".." !in row.path
      && (row.scope == "exact" || row.scope == "subtree") && row.owner != "" && row.lifetime != ""
      && (row.class_ == "managed-support" || row.class_ == "mutable-state" || row.class_ == "customization"
          || row.class_ == "local-only")
  {
    BelowText(ROOT, row.path);
    assert Join(ROOT) + "/" == ".agentic-workspace/";
    CharText(row.path, '\\');
    CharText(row.path, ':');
  }

  // ----- what an inventory should find -----

  predicate Covered(rows: seq<Row>, path: Path) {
    exists k :: 0 <= k < |rows| && Covers(rows[k], path)
  }

  /** Some declared path lies below. */
  predicate Above(rows: seq<Row>, path: Path) {
    exists k :: 0 <= k < |rows| && Below(path, rows[k].path)
  }

  /** Observed, owned by no declaration, and not a directory leading to a declared path. */
  predicate Residue(fs: FileSystem, rows: seq<Row>, path: Path) {
    path in fs && !Covered(rows, path) && !(fs[path].Directory? && Above(rows, path))
  }

  /** Every observed path sits in an observed directory. */
  ghost predicate Tree(fs: FileSystem) {
    forall path :: path in fs && |path| > 1 ==> path[..|path| - 1] in fs && fs[path[..|path| - 1]].Directory?
  }

  lemma {:induction false} AncestorIsDirectory(fs: FileSystem, ancestor: Path, path: Path)
    requires Tree(fs) && path in fs && Below(ancestor, path) && ancestor != []
    ensures ancestor in fs && fs[ancestor].Directory?
    decreases |path|
  {
    var parent := path[..|path| - 1];
    assert ancestor <= parent;
    if ancestor != parent {
      AncestorIsDirectory(fs, ancestor, parent);
    }
  }

  /** Removing residue never strands an unmarked path: whatever was observed below it is
      residue too. */
  lemma ResidueIsClosed(fs: FileSystem, rows: seq<Row>, path: Path, lower: Path)
    requires Tree(fs) && path != [] && Residue(fs, rows, path) && lower in fs && Below(path, lower)
    ensures Residue(fs, rows, lower) && fs[path].Directory?
  {
    AncestorIsDirectory(fs, path, lower);
    forall k | 0 <= k < |rows| ensures !Covers(rows[k], lower) && !Below(lower, rows[k].path) {
      var declared := rows[k].path;
      assert !Covers(rows[k], path) && !Below(path, declared);
      if declared <= lower {
        assert |declared| <= |path| ==> declared <= path;
        assert |path| <= |declared| ==> path <= declared;
      }
    }
  }

  /** Residue is never owned, and no declared path lies at or below it. */
  lemma ResidueIsUnowned(fs: FileSystem, rows: seq<Row>, path: Path, k: nat)
    requires Tree(fs) && Residue(fs, rows, path) && k < |rows|
    requires rows[k].path in fs && path != []
    ensures !(path <= rows[k].path) && !Covers(rows[k], path)
  {
    if Below(path, rows[k].path) {
      AncestorIsDirectory(fs, path, rows[k].path);
    }
  }

  /** Some tree holds `node` at the path and something at `lower`. */
  ghost predicate MayHold(path: Path, node: Node, lower: Path) {
    exists other: FileSystem :: Tree(other) && path in other && other[path] == node && lower in other
  }

  lemma MayHoldExactly(path: Path, node: Node, lower: Path)
    requires path != [] && path <= lower
    ensures MayHold(path, node, lower) <==> lower == path || node.Directory?
  {
    if MayHold(path, node, lower) {
      var other: FileSystem :| Tree(other) && path in other && other[path] == node && lower in other;
      if path != lower {
        AncestorIsDirectory(other, path, lower);
      }
    }
    if lower == path || node.Directory? {
      TrailIsTree(path, node, lower);
    }
  }

  /** `lower` and its ancestors: `node` at the path, directories elsewhere. */
  ghost function Trail(path: Path, node: Node, lower: Path): FileSystem {
    var here := if lower == path then node else Directory;
    if |lower| <= 1 then map[lower := here] else Trail(path, node, lower[..|lower| - 1])[lower := here]
  }

  lemma {:induction false} TrailIsTree(path: Path, node: Node, lower: Path)
    requires path < lower ==> node.Directory?
    ensures var trail := Trail(path, node, lower);
      && Tree(trail) && lower in trail && (forall x :: x in trail ==> |x| <= |lower|)
      && trail[lower] == if lower == path then node else Directory
    ensures path != [] && path <= lower ==> path in Trail(path, node, lower) && Trail(path, node, lower)[path] == node
  {
    if |lower| > 1 {
      TrailIsTree(path, node, lower[..|lower| - 1]);
    }
  }

  /** The observed paths that no declaration needs, and no others, are residue: nothing a
      declaration owns could stand at or below them while they hold what was observed. */
  lemma ResidueExactly(fs: FileSystem, rows: seq<Row>, path: Path)
    requires path in fs && path != []
    ensures Residue(fs, rows, path) <==>
      forall lower, k :: 0 <= k < |rows| && path <= lower && MayHold(path, fs[path], lower) ==>
        lower != rows[k].path && !(rows[k].scope == "subtree" && rows[k].path < lower)
  {
    forall lower, k | 0 <= k < |rows| && path <= lower && MayHold(path, fs[path], lower) && Covers(rows[k], lower)
      ensures !Residue(fs, rows, path)
    {
      MayHoldExactly(path, fs[path], lower);
      var declared := rows[k].path;
      assert |declared| <= |path| ==> declared <= path;
      assert |path| <= |declared| ==> path <= declared;
    }
    forall k | 0 <= k < |rows| && (Covers(rows[k], path) || (fs[path].Directory? && Below(path, rows[k].path)))
      ensures exists lower :: path <= lower && MayHold(path, fs[path], lower) && Covers(rows[k], lower)
    {
      var lower := if Covers(rows[k], path) then path else rows[k].path;
      MayHoldExactly(path, fs[path], lower);
      assert Covers(rows[k], lower);
    }
  }

  // ----- the inventory walk -----

  datatype Entry = Declared(row: Row) | Container | Unknown

  datatype Refusal = LimitExceeded | ExactNamesDirectory

  /** The scan does not descend into an owned subtree. */
  predicate Hidden(rows: seq<Row>, path: Path) {
    exists k :: 0 <= k < |rows| && rows[k].scope == "subtree" && Below(rows[k].path, path)
  }

  function Owner(rows: seq<Row>, path: Path): (row: Row)
    requires Covered(rows, path)
    ensures row in rows && Covers(row, path)
  {
    if Covers(rows[0], path) then rows[0]
    else
      assert forall k :: 1 <= k < |rows| ==> rows[k] == rows[1..][k - 1];
      Owner(rows[1..], path)
  }

  function Classify(fs: FileSystem, rows: seq<Row>, path: Path): Entry
    requires path in fs
  {
    if Covered(rows, path) then Declared(Owner(rows, path))
    else if fs[path].Directory? && Above(rows, path) then Container
    else Unknown
  }

  function Children(fs: FileSystem, path: Path): set<string> {
    set x | x in fs && |x| == |path| + 1 && Below(path, x) :: x[|path|]
  }

  /** What a walk has seen of `path` once it is back from these children. */
  ghost predicate Seen(path: Path, done: set<string>, x: Path) {
    x == path || (Below(path, x) && x[|path|] in done)
  }

  lemma SeenChild(path: Path, done: set<string>, name: string, x: Path)
    ensures Seen(path, done + {name}, x) <==> Seen(path, done, x) || path + [name] <= x
  {
    if path + [name] <= x {
      assert x[..|path|] == path && x[|path|] == name;
    }
    if Below(path, x) && x[|path|] == name {
      assert x[..|path| + 1] == path + [name];
    }
  }

  lemma SeenAll(fs: FileSystem, path: Path, x: Path)
    requires Tree(fs) && path != [] && x in fs && path <= x
    ensures Seen(path, Children(fs, path), x)
  {
    if x != path {
      var child := x[..|path| + 1];
      if child != x {
        AncestorIsDirectory(fs, child, x);
      }
      assert child in fs && Below(path, child) && child[|path|] == x[|path|];
    }
  }

  lemma NothingBelow(fs: FileSystem, path: Path, x: Path)
    requires Tree(fs) && path != [] && x in fs && path <= x && path in fs && !fs[path].Directory?
    ensures x == path
  {
    if x != path {
      AncestorIsDirectory(fs, path, x);
    }
  }

  /** An owned subtree hides everything below it and holds no residue. */
  lemma SubtreeIsOpaque(fs: FileSystem, rows: seq<Row>, path: Path, x: Path)
    requires Covered(rows, path) && Owner(rows, path).scope == "subtree" && path <= x
    ensures !Residue(fs, rows, x) && (x != path ==> Hidden(rows, x))
  {
    var row := Owner(rows, path);
    var k :| 0 <= k < |rows| && rows[k] == row;
    assert row.path <= x && Covers(rows[k], x);
  }

  lemma ChildIsVisible(rows: seq<Row>, path: Path, name: string)
    requires Valid(rows) && !Hidden(rows, path)
    requires Covered(rows, path) ==> Owner(rows, path).scope != "subtree"
    ensures !Hidden(rows, path + [name])
  {
    forall k | 0 <= k < |rows| && rows[k].scope == "subtree" ensures !Below(rows[k].path, path + [name]) {
      if Below(rows[k].path, path + [name]) {
        assert rows[k].path <= path;
        assert Covers(rows[k], path);
        var j :| 0 <= j < |rows| && rows[j] == Owner(rows, path);
        OneOwner(rows, path, j, k);
        assert false;
      }
    }
  }

  /** Below `path` exactly the residue has been marked, with what was observed there. */
  ghost predicate Marks(fs: FileSystem, rows: seq<Row>, before: map<Path, Node>, after: map<Path, Node>,
                        seen: iset<Path>) {
    && (forall x :: x in after <==> x in before || (x in seen && Residue(fs, rows, x)))
    && forall x :: x in after ==> after[x] == if x in seen && Residue(fs, rows, x) then fs[x] else before[x]
  }

  /** Below `path` everything no owned subtree hides has been listed. */
  ghost predicate Lists(fs: FileSystem, rows: seq<Row>, before: map<Path, Entry>, after: map<Path, Entry>,
                        seen: iset<Path>) {
    && (forall x :: x in after <==> x in before || (x in seen && x in fs && !Hidden(rows, x)))
    && forall x :: x in after ==>
         after[x] == if x in seen && x in fs && !Hidden(rows, x) then Classify(fs, rows, x) else before[x]
  }

  predicate AtOrBelow(path: Path, x: Path) {
    path <= x
  }

  datatype Findings = Findings(entries: map<Path, Entry>, removals: map<Path, Node>)

  /** From `before` to `after` exactly the paths in `seen` have been entered. */
  ghost predicate Walked(fs: FileSystem, rows: seq<Row>, before: Findings, after: Findings, seen: iset<Path>) {
    && Marks(fs, rows, before.removals, after.removals, seen)
    && Lists(fs, rows, before.entries, after.entries, seen)
  }

  ghost function From(path: Path): iset<Path> {
    iset x: Path | AtOrBelow(path, x)
  }

  ghost function SeenSet(path: Path, done: set<string>): iset<Path> {
    iset x | Seen(path, done, x)
  }

  /** A walk that enters nothing changes nothing. */
  lemma WalkedNothing(fs: FileSystem, rows: seq<Row>, found: Findings, path: Path)
    requires Tree(fs) && path != [] && path !in fs
    ensures Walked(fs, rows, found, found, From(path))
  {
    forall x | path <= x ensures x !in fs {
      if x in fs && x != path { AncestorIsDirectory(fs, path, x); }
    }
  }

  /** Entering one path, as its classification says. */
  function Enter(fs: FileSystem, rows: seq<Row>, found: Findings, path: Path): Findings
    requires path in fs
  {
    Findings(found.entries[path := Classify(fs, rows, path)],
             if Residue(fs, rows, path) then found.removals[path := fs[path]] else found.removals)
  }

  lemma EnterWalks(fs: FileSystem, rows: seq<Row>, found: Findings, path: Path)
    requires path in fs && !Hidden(rows, path)
    ensures Walked(fs, rows, found, Enter(fs, rows, found, path), SeenSet(path, {}))
  {
  }

  lemma OpaqueWalks(fs: FileSystem, rows: seq<Row>, found: Findings, path: Path)
    requires path in fs && !Hidden(rows, path) && Covered(rows, path) && Owner(rows, path).scope == "subtree"
    ensures Walked(fs, rows, found, Enter(fs, rows, found, path), From(path))
  {
    forall x | path <= x ensures !Residue(fs, rows, x) && (x != path ==> Hidden(rows, x)) {
      SubtreeIsOpaque(fs, rows, path, x);
    }
  }

  lemma OneMoreChild(fs: FileSystem, rows: seq<Row>, path: Path, done: set<string>, name: string,
                     before: Findings, middle: Findings, after: Findings)
    requires Walked(fs, rows, before, middle, SeenSet(path, done))
    requires Walked(fs, rows, middle, after, From(path + [name]))
    ensures Walked(fs, rows, before, after, SeenSet(path, done + {name}))
  {
    forall x ensures x in SeenSet(path, done + {name}) <==> x in SeenSet(path, done) || x in From(path + [name]) {
      SeenChild(path, done, name, x);
    }
  }

  lemma AllSeen(fs: FileSystem, rows: seq<Row>, path: Path, done: set<string>, before: Findings, after: Findings)
    requires Tree(fs) && path in fs && path != []
    requires done == Children(fs, path) || !fs[path].Directory?
    requires Walked(fs, rows, before, after, SeenSet(path, done))
    ensures Walked(fs, rows, before, after, From(path))
  {
    forall x | x in fs ensures x in SeenSet(path, done) <==> x in From(path) {
      if path <= x {
        if fs[path].Directory? {
          SeenAll(fs, path, x);
        } else {
          NothingBelow(fs, path, x);
        }
      }
    }
  }

  /** The names a directory holds, in some order. */
  method ReadDirectory(fs: FileSystem, path: Path) returns (names: seq<string>)
    ensures forall name :: name in names <==> name in Children(fs, path)
    ensures forall name :: name in names ==> path + [name] in fs
    ensures forall i, j :: 0 <= i < j < |names| ==> names[i] != names[j]
  {
    forall name | name in Children(fs, path) ensures path + [name] in fs {
      ChildExists(fs, path, name);
    }
    var remaining := Children(fs, path);
    ghost var all := remaining;
    names := [];
    while remaining != {}
      invariant remaining <= all
      invariant forall name :: name in all <==> name in remaining || name in names
      invariant forall name :: name in names ==> name !in remaining
      invariant forall i, j :: 0 <= i < j < |names| ==> names[i] != names[j]
    {
      var name :| name in remaining;
      remaining := remaining - {name};
      names := names + [name];
    }
  }

  predicate Crowded(fs: FileSystem, path: Path) {
    |Children(fs, path)| > MAX_COUNT
  }

  /** The observed paths at or below `path` that no owned subtree hides. */
  ghost predicate Listed(fs: FileSystem, rows: seq<Row>, path: Path, x: Path) {
    x in fs && path <= x && !Hidden(rows, x)
  }

  /** A walk visits its start and visible paths below it. */
  ghost predicate Visits(fs: FileSystem, rows: seq<Row>, path: Path, before: set<Path>, after: set<Path>) {
    && before <= after
    && forall x :: x in after && x !in before ==> x == path || Listed(fs, rows, path, x)
  }

  /** Below the path only these children have been visited. */
  ghost predicate VisitedOnly(path: Path, names: seq<string>, visited: set<Path>) {
    forall x :: x in visited && Below(path, x) ==> x[|path|] in names
  }

  lemma NextIsNew(path: Path, names: seq<string>, i: nat, visited: set<Path>)
    requires i < |names| && forall j :: 0 <= j < i ==> names[j] != names[i]
    requires VisitedOnly(path, names[..i], visited)
    ensures forall x :: path + [names[i]] <= x ==> x !in visited
  {
    forall x | path + [names[i]] <= x ensures x !in visited {
      assert Below(path, x) && x[|path|] == names[i] by {
        assert x[..|path| + 1] == path + [names[i]];
        assert x[..|path|] == path;
      }
    }
  }

  lemma VisitsMore(fs: FileSystem, rows: seq<Row>, path: Path, start: set<Path>, before: set<Path>, after: set<Path>)
    requires Visits(fs, rows, path, start, before) && Visits(fs, rows, path, before, after)
    ensures Visits(fs, rows, path, start, after)
  {
  }

  lemma VisitsBelow(fs: FileSystem, rows: seq<Row>, path: Path, name: string, before: set<Path>, after: set<Path>)
    requires Visits(fs, rows, path + [name], before, after) && path + [name] in fs && !Hidden(rows, path + [name])
    ensures Visits(fs, rows, path, before, after)
  {
    forall x | AtOrBelow(path + [name], x) ensures path <= x {
      assert x[..|path|] == path;
    }
  }

  lemma VisitedNames(fs: FileSystem, rows: seq<Row>, path: Path, names: seq<string>, i: nat, before: set<Path>,
                     after: set<Path>)
    requires i < |names| && Visits(fs, rows, path + [names[i]], before, after)
    requires VisitedOnly(path, names[..i], before)
    ensures VisitedOnly(path, names[..i + 1], after)
  {
    assert names[..i + 1] == names[..i] + [names[i]];
    forall x | path + [names[i]] <= x ensures x[|path|] == names[i] {
      assert x[..|path| + 1] == path + [names[i]];
    }
  }

  predicate ExactlyNamed(rows: seq<Row>, x: Path) {
    exists k :: 0 <= k < |rows| && rows[k].path == x && rows[k].scope == "exact"
  }

  /** A path at this depth is out of bounds: too deep, or a directory with too many entries. */
  predicate TooBig(fs: FileSystem, rows: seq<Row>, x: Path, depth: int)
    requires x in fs
  {
    depth > MAX_DEPTH || (fs[x].Directory? && !Covered(rows, x) && Crowded(fs, x))
  }

  /** Everything visible from the path down has been visited, within the bounds, and no exact row
      names a directory there. */
  ghost predicate Scanned(fs: FileSystem, rows: seq<Row>, path: Path, depth: nat, visited: set<Path>) {
    forall x :: Listed(fs, rows, path, x) ==>
      x in visited && !TooBig(fs, rows, x, depth + |x| - |path|) && (fs[x].Directory? ==> !ExactlyNamed(rows, x))
  }

  lemma ScannedStays(fs: FileSystem, rows: seq<Row>, path: Path, depth: nat, visited: set<Path>, visited': set<Path>)
    requires Scanned(fs, rows, path, depth, visited) && visited <= visited'
    ensures Scanned(fs, rows, path, depth, visited')
  {
  }

  lemma NothingScanned(fs: FileSystem, rows: seq<Row>, path: Path, depth: nat, visited: set<Path>)
    requires Tree(fs) && path != [] && path !in fs
    ensures Scanned(fs, rows, path, depth, visited)
  {
    forall x | path <= x ensures x !in fs {
      if x in fs && x != path { AncestorIsDirectory(fs, path, x); }
    }
  }

  lemma OpaqueScanned(fs: FileSystem, rows: seq<Row>, path: Path, depth: nat, visited: set<Path>)
    requires Valid(rows) && Covered(rows, path) && Owner(rows, path).scope == "subtree"
    requires path in visited && depth <= MAX_DEPTH
    ensures Scanned(fs, rows, path, depth, visited)
  {
    var j :| 0 <= j < |rows| && rows[j] == Owner(rows, path);
    forall x | path <= x && x != rows[j].path ensures Hidden(rows, x) {
      assert rows[j].path <= path && Below(rows[j].path, x);
    }
    forall k: nat | k < |rows| && rows[k].path == rows[j].path ensures k == j {
      OneOwner(rows, rows[j].path, j, k);
    }
  }

  lemma FileScanned(fs: FileSystem, rows: seq<Row>, path: Path, depth: nat, visited: set<Path>)
    requires Tree(fs) && path != [] && path in fs && !fs[path].Directory? && path in visited && depth <= MAX_DEPTH
    ensures Scanned(fs, rows, path, depth, visited)
  {
    forall x | x in fs && path <= x ensures x == path {
      NothingBelow(fs, path, x);
    }
  }

  lemma BelowChild(fs: FileSystem, path: Path, x: Path)
    requires Tree(fs) && path != [] && x in fs && Below(path, x)
    ensures x[|path|] in Children(fs, path) && path + [x[|path|]] <= x
  {
    SeenAll(fs, path, x);
    assert x[..|path| + 1] == path + [x[|path|]];
  }

  lemma ChildrenScanned(fs: FileSystem, rows: seq<Row>, path: Path, depth: nat, visited: set<Path>)
    requires Tree(fs) && path != [] && path in fs && !Covered(rows, path)
    requires path in visited && depth <= MAX_DEPTH && !Crowded(fs, path)
    requires forall name :: name in Children(fs, path) ==> Scanned(fs, rows, path + [name], depth + 1, visited)
    ensures Scanned(fs, rows, path, depth, visited)
  {
    forall x | Listed(fs, rows, path, x)
      ensures x in visited && !TooBig(fs, rows, x, depth + |x| - |path|)
        && (fs[x].Directory? ==> !ExactlyNamed(rows, x))
    {
      if x == path {
        forall k | 0 <= k < |rows| ensures rows[k].path != x {
          assert !Covers(rows[k], x);
        }
      } else {
        BelowChild(fs, path, x);
        assert Listed(fs, rows, path + [x[|path|]], x);
      }
    }
  }

  /** What an inventory lists before it looks: the root and the subtrees. */
  function Announced(rows: seq<Row>): map<Path, Entry> {
    if rows == [] then map[ROOT := Container]
    else
      var row := rows[|rows| - 1];
      var before := Announced(rows[..|rows| - 1]);
      if row.scope == "subtree" then before[row.path := Declared(row)] else before
  }

  lemma AnnouncedExactly(rows: seq<Row>)
    requires Valid(rows)
    ensures ROOT in Announced(rows) && Announced(rows)[ROOT] == Container
    ensures forall k :: 0 <= k < |rows| && rows[k].scope == "subtree" ==>
      rows[k].path in Announced(rows) && Announced(rows)[rows[k].path] == Declared(rows[k])
    ensures forall x :: x in Announced(rows) && x != ROOT ==>
      exists k :: 0 <= k < |rows| && rows[k].scope == "subtree" && rows[k].path == x
  {
    AnnouncedRoot(rows);
    forall k: nat | k < |rows| && rows[k].scope == "subtree"
      ensures rows[k].path in Announced(rows) && Announced(rows)[rows[k].path] == Declared(rows[k])
    {
      AnnouncedRow(rows, k);
    }
    forall x | x in Announced(rows) && x != ROOT
      ensures exists k :: 0 <= k < |rows| && rows[k].scope == "subtree" && rows[k].path == x
    {
      var k := AnnouncedBy(rows, x);
    }
  }

  lemma {:induction false} AnnouncedRoot(rows: seq<Row>)
    requires Valid(rows)
    ensures ROOT in Announced(rows) && Announced(rows)[ROOT] == Container
  {
    if rows != [] {
      assert WellFormed(rows[|rows| - 1]);
      AnnouncedRoot(rows[..|rows| - 1]);
    }
  }

  lemma {:induction false} AnnouncedRow(rows: seq<Row>, k: nat)
    requires Valid(rows) && k < |rows| && rows[k].scope == "subtree"
    ensures rows[k].path in Announced(rows) && Announced(rows)[rows[k].path] == Declared(rows[k])
  {
    var n := |rows| - 1;
    if k < n {
      assert !Ambiguous(rows[k], rows[n]);
      AnnouncedRow(rows[..n], k);
    }
  }

  lemma {:induction false} AnnouncedBy(rows: seq<Row>, x: Path) returns (k: nat)
    requires x in Announced(rows) && x != ROOT
    ensures k < |rows| && rows[k].scope == "subtree" && rows[k].path == x
  {
    k := |rows| - 1;
    if !(rows[k].scope == "subtree" && rows[k].path == x) {
      k := AnnouncedBy(rows[..k], x);
    }
  }

  class Inventory {
    var found: Findings
    var count: nat
    ghost var visited: set<Path>

    /** The count is the number of different paths visited. */
    ghost predicate Tallied()
      reads this
    {
      count == |visited|
    }

    constructor (rows: seq<Row>)
      requires Valid(rows)
      ensures found == Findings(Announced(rows), map[]) && count == 0 && visited == {}
    {
      var initial: map<Path, Entry> := map[ROOT := Container];
      for k := 0 to |rows|
        invariant initial == Announced(rows[..k])
      {
        if rows[k].scope == "subtree" {
          initial := initial[rows[k].path := Declared(rows[k])];
        }
        assert rows[..k + 1][..k] == rows[..k];
      }
      assert rows[..|rows|] == rows;
      found, count, visited := Findings(initial, map[]), 0, {};
    }

    /** List everything from `path` down that no owned subtree hides, and mark exactly the
        residue.  Refuses only beyond the bounds, or when an exact row names a directory. */
    method Walk(fs: FileSystem, path: Path, rows: seq<Row>, depth: nat) returns (refusal: Option<Refusal>)
      requires Tree(fs) && Valid(rows) && path != [] && !Hidden(rows, path)
      requires Tallied() && forall x :: path <= x ==> x !in visited
      modifies this
      ensures refusal.None? ==> Walked(fs, rows, old(found), found, From(path)) && count <= MAX_COUNT
      ensures refusal.None? ==> Scanned(fs, rows, path, depth, visited)
      ensures refusal.Some? ==> Refused(fs, path, rows, depth, count, refusal.value)
      ensures Tallied() && Visits(fs, rows, path, old(visited), visited)
      decreases MAX_DEPTH + 1 - depth, 3
    {
      count, visited := count + 1, visited + {path};
      if count > MAX_COUNT || depth > MAX_DEPTH {
        return Some(LimitExceeded);
      }
      if path !in fs {
        WalkedNothing(fs, rows, found, path);
        NothingScanned(fs, rows, path, depth, visited);
        return None;
      }
      ghost var before := found;
      EnterPath(fs, path, rows);
      var directory := fs[path].Directory?;
      if Covered(rows, path) && Owner(rows, path).scope == "subtree" {
        OpaqueWalks(fs, rows, before, path);
        OpaqueScanned(fs, rows, path, depth, visited);
        return None;
      }
      if Covered(rows, path) && directory {
        ExactDirectory(fs, path, rows, depth, count);
        return Some(ExactNamesDirectory);
      }
      EnterWalks(fs, rows, before, path);
      if directory {
        refusal := WalkChildren(fs, path, rows, depth, before);
      } else {
        AllSeen(fs, rows, path, {}, before, found);
        FileScanned(fs, rows, path, depth, visited);
        refusal := None;
      }
    }

    method EnterPath(fs: FileSystem, path: Path, rows: seq<Row>)
      requires path in fs
      modifies this`found
      ensures found == Enter(fs, rows, old(found), path)
    {
      if Covered(rows, path) {
        found := found.(entries := found.entries[path := Declared(Owner(rows, path))]);
      } else if fs[path].Directory? && Above(rows, path) {
        found := found.(entries := found.entries[path := Container]);
      } else {
        found := Findings(found.entries[path := Unknown], found.removals[path := fs[path]]);
      }
    }

    method WalkChildren(fs: FileSystem, path: Path, rows: seq<Row>, depth: nat, ghost before: Findings)
      returns (refusal: Option<Refusal>)
      requires Tree(fs) && Valid(rows) && path != [] && !Hidden(rows, path)
      requires path in fs && fs[path].Directory? && depth <= MAX_DEPTH
      requires !Covered(rows, path)
      requires Walked(fs, rows, before, found, SeenSet(path, {}))
      requires Tallied() && count <= MAX_COUNT && path in visited && forall x :: Below(path, x) ==> x !in visited
      modifies this
      ensures refusal.None? ==> Walked(fs, rows, before, found, From(path)) && count <= MAX_COUNT
      ensures refusal.None? ==> Scanned(fs, rows, path, depth, visited)
      ensures refusal.Some? ==> Refused(fs, path, rows, depth, count, refusal.value)
      ensures Tallied() && Visits(fs, rows, path, old(visited), visited)
      decreases MAX_DEPTH + 1 - depth, 2
    {
      if Crowded(fs, path) {
        CrowdedRefuses(fs, path, rows, depth, count);
        return Some(LimitExceeded);
      }
      var children := ReadDirectory(fs, path);
      refusal := WalkNames(fs, path, rows, depth, children, before);
      if refusal.None? {
        assert Names(children) == Children(fs, path);
        AllSeen(fs, rows, path, Names(children), before, found);
        ChildrenScanned(fs, rows, path, depth, visited);
      }
    }

    method WalkNames(fs: FileSystem, path: Path, rows: seq<Row>, depth: nat, names: seq<string>, ghost before: Findings)
      returns (refusal: Option<Refusal>)
      requires Tree(fs) && Valid(rows) && path != [] && !Hidden(rows, path) && depth <= MAX_DEPTH
      requires forall name :: name in names ==> path + [name] in fs
      requires forall i, j :: 0 <= i < j < |names| ==> names[i] != names[j]
      requires !Covered(rows, path)
      requires Walked(fs, rows, before, found, SeenSet(path, {}))
      requires Tallied() && count <= MAX_COUNT && forall x :: Below(path, x) ==> x !in visited
      modifies this
      ensures refusal.None? ==> Walked(fs, rows, before, found, SeenSet(path, Names(names))) && count <= MAX_COUNT
      ensures refusal.None? ==> forall name :: name in names ==> Scanned(fs, rows, path + [name], depth + 1, visited)
      ensures refusal.Some? ==> Refused(fs, path, rows, depth, count, refusal.value)
      ensures Tallied() && Visits(fs, rows, path, old(visited), visited)
      decreases MAX_DEPTH + 1 - depth, 1
    {
      ghost var start := visited;
      NoneYet(fs, rows, path, depth, names, before, found, visited);
      for i := 0 to |names|
        invariant Tallied() && count <= MAX_COUNT
        invariant SoFar(fs, rows, path, depth, names[..i], before, found, start, visited)
      {
        refusal := WalkOne(fs, path, rows, depth, names, i, before, start);
        if refusal.Some? {
          return;
        }
      }
      assert names[..|names|] == names;
      refusal := None;
    }

    /** The walk of the next child. */
    method WalkOne(fs: FileSystem, path: Path, rows: seq<Row>, depth: nat, names: seq<string>, i: nat,
                   ghost before: Findings, ghost start: set<Path>)
      returns (refusal: Option<Refusal>)
      requires Tree(fs) && Valid(rows) && path != [] && !Hidden(rows, path) && !Covered(rows, path)
        && depth <= MAX_DEPTH
      requires i < |names| && path + [names[i]] in fs && forall j :: 0 <= j < i ==> names[j] != names[i]
      requires Tallied() && SoFar(fs, rows, path, depth, names[..i], before, found, start, visited)
      modifies this
      ensures refusal.None? ==> count <= MAX_COUNT
      ensures refusal.None? ==> SoFar(fs, rows, path, depth, names[..i + 1], before, found, start, visited)
      ensures refusal.Some? ==> Refused(fs, path, rows, depth, count, refusal.value)
      ensures Tallied() && Visits(fs, rows, path, start, visited)
      decreases MAX_DEPTH + 1 - depth, 0
    {
      ghost var middle, entered := found, visited;
      NextIsNew(path, names, i, visited);
      ChildIsVisible(rows, path, names[i]);
      refusal := Walk(fs, path + [names[i]], rows, depth + 1);
      VisitsBelow(fs, rows, path, names[i], entered, visited);
      VisitsMore(fs, rows, path, start, entered, visited);
      if refusal.Some? {
        RefusedBelow(fs, path, names[i], rows, depth, count, refusal.value);
        return;
      }
      OneMoreWalked(fs, rows, path, depth, names, i, before, middle, found, start, entered, visited);
    }
  }

  /** The children walked so far. */
  ghost predicate SoFar(fs: FileSystem, rows: seq<Row>, path: Path, depth: nat, names: seq<string>,
                        before: Findings, found: Findings, start: set<Path>, visited: set<Path>) {
    && Walked(fs, rows, before, found, SeenSet(path, Names(names)))
    && (forall name :: name in names ==> Scanned(fs, rows, path + [name], depth + 1, visited))
    && Visits(fs, rows, path, start, visited) && VisitedOnly(path, names, visited)
  }

  lemma NoneYet(fs: FileSystem, rows: seq<Row>, path: Path, depth: nat, names: seq<string>,
                before: Findings, found: Findings, visited: set<Path>)
    requires Walked(fs, rows, before, found, SeenSet(path, {})) && forall x :: Below(path, x) ==> x !in visited
    ensures SoFar(fs, rows, path, depth, names[..0], before, found, visited, visited)
  {
    assert Names(names[..0]) == {};
  }

  lemma OneMoreWalked(fs: FileSystem, rows: seq<Row>, path: Path, depth: nat, names: seq<string>, i: nat,
                      before: Findings, middle: Findings, found: Findings,
                      start: set<Path>, entered: set<Path>, visited: set<Path>)
    requires i < |names| && SoFar(fs, rows, path, depth, names[..i], before, middle, start, entered)
    requires Walked(fs, rows, middle, found, From(path + [names[i]]))
    requires Scanned(fs, rows, path + [names[i]], depth + 1, visited)
    requires Visits(fs, rows, path, start, visited) && Visits(fs, rows, path + [names[i]], entered, visited)
    ensures SoFar(fs, rows, path, depth, names[..i + 1], before, found, start, visited)
  {
    VisitedNames(fs, rows, path, names, i, entered, visited);
    OneMoreChild(fs, rows, path, Names(names[..i]), names[i], before, middle, found);
    OneMoreName(names, i);
    assert names[..i + 1] == names[..i] + [names[i]];
    forall name | name in names[..i] ensures Scanned(fs, rows, path + [name], depth + 1, visited) {
      ScannedStays(fs, rows, path + [name], depth + 1, entered, visited);
    }
  }

  function Names(names: seq<string>): set<string> {
    set name | name in names
  }

  lemma OneMoreName(names: seq<string>, i: nat)
    requires i < |names|
    ensures Names(names[..i + 1]) == Names(names[..i]) + {names[i]}
  {
    assert names[..i + 1] == names[..i] + [names[i]];
  }

  lemma CrowdedRefuses(fs: FileSystem, path: Path, rows: seq<Row>, depth: nat, count: nat)
    requires path in fs && !Hidden(rows, path) && fs[path].Directory? && !Covered(rows, path) && Crowded(fs, path)
    ensures Refused(fs, path, rows, depth, count, LimitExceeded)
  {
    assert Listed(fs, rows, path, path);
  }

  lemma ExactDirectory(fs: FileSystem, path: Path, rows: seq<Row>, depth: nat, count: nat)
    requires Valid(rows) && path in fs && !Hidden(rows, path) && fs[path].Directory? && Covered(rows, path)
    requires Owner(rows, path).scope != "subtree"
    ensures Refused(fs, path, rows, depth, count, ExactNamesDirectory)
  {
    var k :| 0 <= k < |rows| && rows[k] == Owner(rows, path);
    assert WellFormed(rows[k]);
    assert Listed(fs, rows, path, path);
  }

  lemma ChildExists(fs: FileSystem, path: Path, name: string)
    requires name in Children(fs, path)
    ensures path + [name] in fs
  {
    var x :| x in fs && |x| == |path| + 1 && Below(path, x) && x[|path|] == name;
    assert x == path + [name];
  }

  /** Why a walk may refuse: the count, the depth, or something visible. */
  ghost predicate Refused(fs: FileSystem, path: Path, rows: seq<Row>, depth: nat, count: nat, refusal: Refusal) {
    match refusal
    case LimitExceeded =>
      || count > MAX_COUNT || depth > MAX_DEPTH
      || exists x :: Listed(fs, rows, path, x) && TooBig(fs, rows, x, depth + |x| - |path|)
    case ExactNamesDirectory =>
      exists x :: Listed(fs, rows, path, x) && fs[x].Directory? && ExactlyNamed(rows, x)
  }

  lemma RefusedBelow(fs: FileSystem, path: Path, name: string, rows: seq<Row>, depth: nat, count: nat, refusal: Refusal)
    requires path + [name] in fs && !Hidden(rows, path + [name])
    requires Refused(fs, path + [name], rows, depth + 1, count, refusal)
    ensures Refused(fs, path, rows, depth, count, refusal)
  {
    var child := path + [name];
    forall x | Listed(fs, rows, child, x) ensures Listed(fs, rows, path, x) {
      assert x[..|path|] == path;
    }
    assert Listed(fs, rows, child, child);
  }

  /** The observed paths in the enclave that no owned subtree hides. */
  function Visible(fs: FileSystem, rows: seq<Row>): set<Path> {
    set x | x in fs && ROOT <= x && !Hidden(rows, x)
  }

  /** An inventory of the enclave stays within its bounds and meets no directory that an exact row
      names. */
  ghost predicate Inventoriable(fs: FileSystem, rows: seq<Row>) {
    && |Visible(fs, rows)| <= MAX_COUNT
    && forall x :: x in Visible(fs, rows) ==>
         !TooBig(fs, rows, x, |x| - |ROOT|) && (fs[x].Directory? ==> !ExactlyNamed(rows, x))
  }

  lemma RefusalMeans(fs: FileSystem, rows: seq<Row>, visited: set<Path>, refusal: Refusal)
    requires ROOT in fs && !Hidden(rows, ROOT)
    requires Visits(fs, rows, ROOT, {}, visited) && Refused(fs, ROOT, rows, 0, |visited|, refusal)
    ensures !Inventoriable(fs, rows)
  {
    forall x ensures Listed(fs, rows, ROOT, x) <==> x in Visible(fs, rows) {
    }
    assert visited <= Visible(fs, rows) by {
      assert Listed(fs, rows, ROOT, ROOT);
    }
    Smaller(visited, Visible(fs, rows));
  }

  lemma SuccessMeans(fs: FileSystem, rows: seq<Row>, visited: set<Path>)
    requires Scanned(fs, rows, ROOT, 0, visited) && |visited| <= MAX_COUNT
    ensures Inventoriable(fs, rows)
  {
    forall x ensures Listed(fs, rows, ROOT, x) <==> x in Visible(fs, rows) {
    }
    Smaller(Visible(fs, rows), visited);
  }

  lemma {:induction false} Smaller<T>(a: set<T>, b: set<T>)
    requires a <= b
    ensures |a| <= |b|
  {
    if a != {} {
      var x :| x in a;
      Smaller(a - {x}, b - {x});
    }
  }

  lemma RootIsVisible(rows: seq<Row>)
    requires Valid(rows)
    ensures !Hidden(rows, ROOT)
  {
    forall k | 0 <= k < |rows| ensures !Below(rows[k].path, ROOT) {
      assert WellFormed(rows[k]);
    }
  }

  /** What the entries say: each lists a visible path, the root or a subtree, with the row that
      owns it, as residue, or as a directory leading to a declared path. */
  ghost predicate ListsExactly(fs: FileSystem, rows: seq<Row>, entries: map<Path, Entry>) {
    && (forall x :: x in entries <==>
          x == ROOT || x in Visible(fs, rows) ||
          exists k :: 0 <= k < |rows| && rows[k].scope == "subtree" && rows[k].path == x)
    && forall x :: x in entries ==> EntryIs(fs, rows, entries[x], x)
  }

  ghost predicate EntryIs(fs: FileSystem, rows: seq<Row>, entry: Entry, x: Path) {
    && (entry == Unknown <==> Residue(fs, rows, x))
    && (entry.Declared? ==> entry.row in rows)
    && forall k :: 0 <= k < |rows| ==>
         (entry == Declared(rows[k]) <==> rows[k].path == x || (rows[k].scope == "subtree" && rows[k].path < x))
  }

  lemma EntriesExactly(fs: FileSystem, rows: seq<Row>, entries: map<Path, Entry>)
    requires Valid(rows) && Lists(fs, rows, Announced(rows), entries, From(ROOT))
    ensures ListsExactly(fs, rows, entries)
  {
    AnnouncedExactly(rows);
    RootIsVisible(rows);
    forall x | x in entries ensures EntryIs(fs, rows, entries[x], x) {
      if x in fs && ROOT <= x && !Hidden(rows, x) {
        ClassifyExactly(fs, rows, x);
      } else {
        AnnouncementExactly(fs, rows, x);
      }
    }
  }

  lemma ClassifyExactly(fs: FileSystem, rows: seq<Row>, x: Path)
    requires Valid(rows) && x in fs
    ensures EntryIs(fs, rows, Classify(fs, rows, x), x)
  {
    forall k: nat | k < |rows| && Covers(rows[k], x) ensures Owner(rows, x) == rows[k] {
      OwnerIsUnique(rows, k, x);
    }
  }

  lemma OwnerIsUnique(rows: seq<Row>, k: nat, x: Path)
    requires Valid(rows) && k < |rows| && Covers(rows[k], x)
    ensures Owner(rows, x) == rows[k]
  {
    var row := Owner(rows, x);
    assert row in rows && Covers(row, x);
    var j: nat :| j < |rows| && rows[j] == row;
    OneOwner(rows, x, j, k);
  }

  lemma AnnouncementExactly(fs: FileSystem, rows: seq<Row>, x: Path)
    requires Valid(rows) && x in Announced(rows) && (x in fs ==> !(ROOT <= x) || Hidden(rows, x))
    ensures EntryIs(fs, rows, Announced(rows)[x], x)
  {
    AnnouncedExactly(rows);
    if x == ROOT {
      RootIsVisible(rows);
      forall k | 0 <= k < |rows| ensures !Covers(rows[k], x) {
        assert WellFormed(rows[k]);
      }
    } else {
      var k: nat :| k < |rows| && rows[k].scope == "subtree" && rows[k].path == x;
      assert WellFormed(rows[k]);
      forall j: nat | j < |rows| && Covers(rows[j], x) ensures j == k {
        OneOwner(rows, x, j, k);
      }
    }
  }

  /** No subtree, and not the root, lies inside another subtree. */
  lemma HiddenIsNotAnnounced(rows: seq<Row>, x: Path)
    requires Valid(rows) && Hidden(rows, x)
    ensures x !in Announced(rows)
  {
    AnnouncedExactly(rows);
    RootIsVisible(rows);
    var k: nat :| k < |rows| && rows[k].scope == "subtree" && Below(rows[k].path, x);
    forall j: nat | j < |rows| ensures rows[j].path != x {
      if rows[j].path == x {
        OneOwner(rows, x, j, k);
      }
    }
  }

  /** `inventory`: succeeds exactly for valid declarations over an enclave that is absent or a
      directory and can be inventoried; its removals are then exactly the residue under the root. */
  method TakeInventory(fs: FileSystem, rows: seq<Row>) returns (result: Option<Findings>)
    requires Tree(fs)
    ensures result.Some? <==> Valid(rows) && (ROOT in fs ==> fs[ROOT].Directory?) && Inventoriable(fs, rows)
    ensures result.Some? ==> ListsExactly(fs, rows, result.value.entries)
    ensures result.Some? ==>
      && (forall x :: x in result.value.removals <==> ROOT <= x && Residue(fs, rows, x))
      && forall x :: x in result.value.removals ==> result.value.removals[x] == fs[x]
  {
    var valid := Validate(rows);
    if !valid || (ROOT in fs && !fs[ROOT].Directory?) {
      return None;
    }
    RootIsVisible(rows);
    var inventory := new Inventory(rows);
    if ROOT in fs {
      var refusal := inventory.Walk(fs, ROOT, rows, 0);
      if refusal.Some? {
        RefusalMeans(fs, rows, inventory.visited, refusal.value);
        return None;
      }
    } else {
      NothingScanned(fs, rows, ROOT, 0, {});
      forall x | ROOT <= x ensures x !in fs {
        if x in fs && x != ROOT { AncestorIsDirectory(fs, ROOT, x); }
      }
    }
    SuccessMeans(fs, rows, inventory.visited);
    EntriesExactly(fs, rows, inventory.found.entries);
    result := Some(inventory.found);
  }
}
