/** The publication loop and the residue removal as code over a mutable tree, one file
    operation at a time, proved equal to the functions of module `Adoption`. */
module AdoptionTree {
  import opened Wrappers
  import opened Enclave
  import opened Adoption

  /** How a call that started in `s` with this budget ended. */
  ghost predicate Ends(p: Progress, s: State, budget: nat, failure: Option<Failure>) {
    && p.state == s
    && (failure.None? <==> p.Running?)
    && (p.Running? ==> p.budget == budget)
    && (p.Halted? ==> failure == Some(p.failure))
  }

  class WorkTree {
    var fs: FileSystem
    var temps: map<Path, Temporary>
    /** File operations left before the crash. */
    var budget: nat

    constructor (fs: FileSystem, budget: nat)
      ensures this.fs == fs && temps == map[] && this.budget == budget
    {
      this.fs, temps, this.budget := fs, map[], budget;
    }

    ghost function Snapshot(): State
      reads this
    {
      State(fs, temps)
    }

    method PublishText(path: Path, before: Option<string>, after: Option<string>, recovery: bool)
      returns (failure: Option<Failure>)
      modifies this
      ensures Ends(Adoption.PublishText(path, before, after, recovery, old(Snapshot()), old(budget)), Snapshot(),
                   budget, failure)
    {
      if path in fs && !fs[path].Regular? {
        return Some(Refused(path));
      }
      var current := if path in fs then Some(fs[path].text) else None;
      if recovery && current == after {
        return None;
      }
      if current != before {
        return Some(Refused(path));
      }
      if after.None? {
        if current.Some? {
          if budget == 0 { return Some(Crashed); }
          fs, budget := fs - {path}, budget - 1;
        }
        return None;
      }
      failure := CreateParents(path);
      if failure.None? {
        failure := Place(path, current, after.value, recovery);
      }
    }

    /** Make the missing ancestors of the path, from the top down. */
    method CreateParents(path: Path) returns (failure: Option<Failure>)
      modifies this
      ensures Ends(MakeAncestors(path, 0, Running(old(Snapshot()), old(budget))), Snapshot(), budget, failure)
    {
      ghost var made := MakeAncestors(path, 0, Running(Snapshot(), budget));
      var n := 0;
      while n + 1 < |path|
        invariant n <= |path|
        invariant MakeAncestors(path, n, Running(Snapshot(), budget)) == made
        decreases |path| - n
      {
        var ancestor := path[..n + 1];
        if ancestor !in fs {
          if budget == 0 {
            HaltedMakesNothing(path, n + 1, Halted(Snapshot(), Crashed));
            return Some(Crashed);
          }
          fs, budget := fs[ancestor := Directory], budget - 1;
        } else if !fs[ancestor].Directory? {
          return Some(Refused(path));
        }
        n := n + 1;
      }
      failure := None;
    }

    method Place(path: Path, current: Option<string>, text: string, recovery: bool) returns (failure: Option<Failure>)
      modifies this
      ensures Ends(PlaceText(path, current, text, recovery, Running(old(Snapshot()), old(budget))), Snapshot(),
                   budget, failure)
    {
      if path in temps {
        if temps[path] != Whole(text) || !recovery {
          return Some(Refused(path));
        }
      } else {
        if budget == 0 { return Some(Crashed); }
        temps, budget := temps[path := Torn], budget - 1;
        if budget == 0 { return Some(Crashed); }
        temps, budget := temps[path := Whole(text)], budget - 1;
      }
      if budget == 0 { return Some(Crashed); }
      if current.None? {
        fs, budget := fs[path := Regular(text)], budget - 1;
        if budget == 0 { return Some(Crashed); }
        temps, budget := temps - {path}, budget - 1;
      } else {
        fs, temps, budget := fs[path := Regular(text)], temps - {path}, budget - 1;
      }
      failure := None;
    }

    method Remove(path: Path, expected: Node, recovery: bool) returns (failure: Option<Failure>)
      modifies this
      ensures Ends(PublishResidue(path, expected, recovery, old(Snapshot()), old(budget)), Snapshot(), budget, failure)
    {
      if |path| < 2 || path[0] != ROOT[0] || exists k :: 0 <= k < |path| && path[k] in ["", ".", ".."] {
        return Some(Refused(path));
      }
      for n := 0 to |path| - 1
        invariant fs == old(fs) && temps == old(temps) && budget == old(budget)
        invariant CheckAncestors(fs, path, 0) == CheckAncestors(fs, path, n)
      {
        var ancestor := path[..n + 1];
        if ancestor !in fs {
          return if recovery then None else Some(Refused(path));
        }
        if !fs[ancestor].Directory? {
          return Some(Refused(path));
        }
      }
      if path !in fs {
        return if recovery then None else Some(Refused(path));
      }
      if fs[path] != expected || (expected.Directory? && !EmptyDirectory(fs, path)) {
        return Some(Refused(path));
      }
      if budget == 0 { return Some(Crashed); }
      fs, budget := fs - {path}, budget - 1;
      failure := None;
    }

    /** Publish the updates in the given order, stopping at the first failure. */
    method Publish(order: seq<Path>, updates: Updates, recovery: bool) returns (failure: Option<Failure>)
      requires forall path :: path in order ==> path in updates
      modifies this
      ensures Ends(PublishAll(order, updates, recovery, Running(old(Snapshot()), old(budget))), Snapshot(), budget,
                   failure)
    {
      ghost var start := Running(Snapshot(), budget);
      for i := 0 to |order|
        invariant PublishAll(order[i..], updates, recovery, Running(Snapshot(), budget))
          == PublishAll(order, updates, recovery, start)
      {
        var path := order[i];
        ghost var p := PublishOne(path, updates, recovery, Running(Snapshot(), budget));
        assert order[i..][1..] == order[i + 1..];
        match updates[path] {
          case Text(before, after) => failure := PublishText(path, before, after, recovery);
          case Residual(expected) => failure := Remove(path, expected, recovery);
        }
        if failure.Some? {
          HaltedStays(order[i + 1..], updates, recovery, p);
          return;
        }
      }
      failure := None;
    }
  }
}
