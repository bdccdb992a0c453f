/** Runs of one call left alone: a deterministic step function repeated until the call stops. */
module Machine {

  function Alone<P, W>(step: (P, W) -> (P, W), stopped: P -> bool, pc: P, w: W, steps: nat): (P, W)
    decreases steps
  {
    if steps == 0 || stopped(pc) then (pc, w)
    else
      var (pc', w') := step(pc, w);
      Alone(step, stopped, pc', w', steps - 1)
  }

  /** Alone, the call gets from one point and state to another. */
  ghost predicate Leads<P, W>(step: (P, W) -> (P, W), stopped: P -> bool, start: (P, W), end: (P, W)) {
    exists n: nat :: Alone(step, stopped, start.0, start.1, n) == end
  }

  lemma {:induction false} OneMore<P, W>(step: (P, W) -> (P, W), stopped: P -> bool, pc: P, w: W, n: nat)
    ensures var (pc', w') := Alone(step, stopped, pc, w, n);
            Alone(step, stopped, pc, w, n + 1) == if stopped(pc') then (pc', w') else step(pc', w')
    decreases n
  {
    if !stopped(pc) {
      var (pc', w') := step(pc, w);
      if n == 0 {
        assert Alone(step, stopped, pc', w', 0) == (pc', w');
      } else {
        OneMore(step, stopped, pc', w', n - 1);
      }
    }
  }

  lemma Here<P, W>(step: (P, W) -> (P, W), stopped: P -> bool, start: (P, W))
    ensures Leads(step, stopped, start, start)
  {
    assert Alone(step, stopped, start.0, start.1, 0) == start;
  }

  lemma Then<P, W>(step: (P, W) -> (P, W), stopped: P -> bool, start: (P, W), at: (P, W), next: (P, W))
    requires Leads(step, stopped, start, at) && !stopped(at.0) && step(at.0, at.1) == next
    ensures Leads(step, stopped, start, next)
  {
    var n: nat :| Alone(step, stopped, start.0, start.1, n) == at;
    OneMore(step, stopped, start.0, start.1, n);
  }
}
