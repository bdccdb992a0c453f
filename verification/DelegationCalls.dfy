/** What a delegated call answers when it is left alone (src/core/src/native_delegation.rs,
    `execute`): the first call, calls over an interrupted run, and the runs after which a
    complete terminal file is never replayed. */
module DelegationCalls {
  import opened Wrappers
  import opened Effects
  import Machine
  import Delegation

  type Files = Effects.Files

  /** The decision offers the invocation, which belongs to this root and may have the effect. */
  ghost predicate Offered(job: Delegation.Job) {
    && job.invocation.key != "" && job.invocation.target == job.root
    && job.invocation.kind == INVOCATION_KIND && job.invocation in job.decision.ready
    && "delegation-execution" in job.invocation.effects
  }

  /** And its worker will be launched and return. */
  ghost predicate Launchable(job: Delegation.Job, env: Delegation.Env) {
    Offered(job) && env.revalidated && env.worked.Some?
  }

  /** No file of this effect exists. */
  ghost predicate NoEvidence(files: Files, key: string) {
    && AttemptPath(key) !in files && RunPath(key) !in files && TerminalPath(key) !in files
    && ResultPath(key) !in files && CompletionPath(key) !in files
  }

  function OutcomeOf(env: Delegation.Env): Outcome
    requires env.worked.Some?
  {
    Outcome("applied", ["delegation-execution"], env.worked.value)
  }

  // ----- a call left alone is a run -----

  lemma StepExtendsRun(root: string, run: seq<Delegation.Host>, next: Delegation.Host)
    requires Delegation.Run(root, run) && Delegation.Next(root, run[|run| - 1], next)
    ensures Delegation.Run(root, run + [next])
  {
    var longer := run + [next];
    forall i | 0 <= i < |longer| - 1 ensures Delegation.Next(root, longer[i], longer[i + 1]) {
      if i < |run| - 1 {
        assert longer[i] == run[i] && longer[i + 1] == run[i + 1];
      }
    }
  }

  lemma {:induction false} AloneIsARun(job: Delegation.Job, me: Call, env: Delegation.Env, n: nat)
    returns (run: seq<Delegation.Host>)
    ensures var (pc, files) := Machine.Alone(Delegation.Stepping(job, me, env), Delegation.Ended, Delegation.ReadRun,
                                             map[], n);
      Delegation.Run(job.root, run)
      && run[|run| - 1].files == files && run[|run| - 1].calls == map[me := (job, pc)]
  {
    if n == 0 {
      var empty := Delegation.Host(map[], map[], []);
      var arrived := empty.(calls := map[me := (job, Delegation.ReadRun)]);
      assert me !in empty.calls && arrived == empty.(calls := empty.calls[me := (job, Delegation.ReadRun)]);
      assert Delegation.Run(job.root, [empty]);
      StepExtendsRun(job.root, [empty], arrived);
      run := [empty] + [arrived];
    } else {
      run := AloneIsARun(job, me, env, n - 1);
      Machine.OneMore(Delegation.Stepping(job, me, env), Delegation.Ended, Delegation.ReadRun, map[], n - 1);
      var s := run[|run| - 1];
      var pc := s.calls[me].1;
      if !Delegation.Ended(pc) {
        var (pc', files') := Delegation.Step(job, pc, me, s.files, env);
        var s' := Delegation.Host(files', s.calls[me := (job, pc')],
                                  if pc.Launch? then s.launched + [me] else s.launched);
        assert Delegation.Advances(s, s', me, env);
        StepExtendsRun(job.root, run, s');
        run := run + [s'];
      }
    }
  }

  lemma LeadsIsReached(job: Delegation.Job, me: Call, env: Delegation.Env, pc: Delegation.DelegationPc, files: Files)
    returns (run: seq<Delegation.Host>)
    requires Delegation.Leads(job, me, env, Delegation.ReadRun, map[], pc, files)
    ensures Delegation.Run(job.root, run) && run[|run| - 1].files == files
  {
    var n: nat :| Machine.Alone(Delegation.Stepping(job, me, env), Delegation.Ended, Delegation.ReadRun, map[], n)
        == (pc, files);
    run := AloneIsARun(job, me, env, n);
  }

  // ----- the files of a first call, in the order they appear -----

  function Whole(me: Call, doc: Doc): File {
    File(me, Some(doc))
  }

  function WithAttempt(base: Files, job: Delegation.Job, me: Call): Files {
    base[AttemptPath(job.invocation.key) := Whole(me, EffectDoc(Sealed(job.invocation, None)))]
  }

  function WithRun(base: Files, job: Delegation.Job, me: Call): Files {
    WithAttempt(base, job, me)[
      RunPath(job.invocation.key) := Whole(me, RunDoc(job.invocation, RunCustody(job.root, job.invocation)))]
  }

  function WithTerminal(base: Files, job: Delegation.Job, me: Call, outcome: Outcome): Files {
    WithRun(base, job, me)[
      TerminalPath(job.invocation.key) := Whole(me, TerminalDoc(Planned(job.root, job.invocation, outcome), outcome))]
  }

  function WithResult(base: Files, job: Delegation.Job, me: Call, outcome: Outcome): Files {
    WithTerminal(base, job, me, outcome)[
      ResultPath(job.invocation.key) := Whole(me, EffectDoc(Sealed(job.invocation, Some(outcome))))]
  }

  function WithCompletion(base: Files, job: Delegation.Job, me: Call, outcome: Outcome): Files {
    WithResult(base, job, me, outcome)[
      CompletionPath(job.invocation.key) :=
        Whole(me, RunDoc(job.invocation, Planned(job.root, job.invocation, outcome)))]
  }

  ghost predicate Reaches(job: Delegation.Job, me: Call, env: Delegation.Env, base: Files,
                          pc: Delegation.DelegationPc, files: Files) {
    Delegation.Leads(job, me, env, Delegation.ReadRun, base, pc, files)
  }

  lemma Then(job: Delegation.Job, me: Call, env: Delegation.Env, base: Files,
             pc: Delegation.DelegationPc, files: Files, pc': Delegation.DelegationPc, files': Files)
    requires Reaches(job, me, env, base, pc, files) && !pc.Finished?
    requires Delegation.Step(job, pc, me, files, env) == (pc', files')
    ensures Reaches(job, me, env, base, pc', files')
  {
    Delegation.Then(job, me, env, Delegation.ReadRun, base, pc, files, pc', files');
  }

  lemma ReachesAdmission(job: Delegation.Job, me: Call, env: Delegation.Env, base: Files)
    requires RunPath(job.invocation.key) !in base
    requires TerminalPath(job.invocation.key) !in base && CompletionPath(job.invocation.key) !in base
    ensures Reaches(job, me, env, base, Delegation.Admitting(None, Start), base)
  {
    Delegation.Here(job, me, env, base);
    Then(job, me, env, base, Delegation.ReadRun, base, Delegation.UnownedCompletion, base);
    Then(job, me, env, base, Delegation.UnownedCompletion, base, Delegation.UnownedTerminal, base);
    Then(job, me, env, base, Delegation.UnownedTerminal, base, Delegation.Admitting(None, Start), base);
  }

  lemma ReachesRunFile(job: Delegation.Job, me: Call, env: Delegation.Env, base: Files)
    requires Offered(job) && NoEvidence(base, job.invocation.key)
    ensures Reaches(job, me, env, base, Delegation.OpenRun(RunCustody(job.root, job.invocation)),
                    WithAttempt(base, job, me))
  {
    var record, path := Sealed(job.invocation, None), AttemptPath(job.invocation.key);
    var stat, open := Delegation.Admitting(None, Stat(record)), Delegation.Admitting(None, Open(record));
    ReachesAdmission(job, me, env, base);
    Then(job, me, env, base, Delegation.Admitting(None, Start), base, stat, base);
    Then(job, me, env, base, stat, base, open, base);
    var begun: Files := base[path := File(me, None)];
    Then(job, me, env, base, open, base, Delegation.Admitting(None, Write(record)), begun);
    var custody := RunCustody(job.root, job.invocation);
    var answer := Delegation.Admitting(None, Done(Admitted(Execute, record, custody)));
    var files := WithAttempt(base, job, me);
    assert begun[path := Whole(me, EffectDoc(record))] == files;
    Then(job, me, env, base, Delegation.Admitting(None, Write(record)), begun, answer, files);
    Then(job, me, env, base, answer, files, Delegation.OpenRun(custody), files);
  }

  lemma ReachesRevalidation(job: Delegation.Job, me: Call, env: Delegation.Env, base: Files)
    requires Offered(job) && NoEvidence(base, job.invocation.key)
    ensures Reaches(job, me, env, base, Delegation.Revalidate(RunCustody(job.root, job.invocation)),
                    WithRun(base, job, me))
  {
    var custody, path := RunCustody(job.root, job.invocation), RunPath(job.invocation.key);
    var files := WithAttempt(base, job, me);
    ReachesRunFile(job, me, env, base);
    var begun: Files := files[path := File(me, None)];
    Then(job, me, env, base, Delegation.OpenRun(custody), files, Delegation.WriteRun(custody), begun);
    assert begun[path := Whole(me, RunDoc(job.invocation, custody))] == WithRun(base, job, me);
    Then(job, me, env, base, Delegation.WriteRun(custody), begun, Delegation.Revalidate(custody),
         WithRun(base, job, me));
  }

  lemma ReachesLaunch(job: Delegation.Job, me: Call, env: Delegation.Env, base: Files)
    requires Launchable(job, env) && NoEvidence(base, job.invocation.key)
    ensures Reaches(job, me, env, base, Delegation.Plan(RunCustody(job.root, job.invocation), OutcomeOf(env), Start),
                    WithRun(base, job, me))
  {
    var custody, files := RunCustody(job.root, job.invocation), WithRun(base, job, me);
    ReachesRevalidation(job, me, env, base);
    Then(job, me, env, base, Delegation.Revalidate(custody), files, Delegation.Launch(custody), files);
    Then(job, me, env, base, Delegation.Launch(custody), files, Delegation.Plan(custody, OutcomeOf(env), Start), files);
  }

  lemma ReachesPlan(job: Delegation.Job, me: Call, env: Delegation.Env, base: Files)
    requires Launchable(job, env) && NoEvidence(base, job.invocation.key)
    ensures var custody, outcome := RunCustody(job.root, job.invocation), OutcomeOf(env);
      Reaches(job, me, env, base, Delegation.OpenTerminal(custody, Planned(job.root, job.invocation, outcome), outcome),
              WithRun(base, job, me))
  {
    var custody, outcome := RunCustody(job.root, job.invocation), OutcomeOf(env);
    var planned, record := Planned(job.root, job.invocation, outcome), Sealed(job.invocation, Some(outcome));
    var files := WithRun(base, job, me);
    CommitSeals(job.invocation, outcome);
    ReachesLaunch(job, me, env, base);
    var stat := Delegation.Plan(custody, outcome, Stat(record));
    Then(job, me, env, base, Delegation.Plan(custody, outcome, Start), files, stat, files);
    var answer := Delegation.Plan(custody, outcome, Done(Returned(record, planned)));
    Then(job, me, env, base, stat, files, answer, files);
    Then(job, me, env, base, answer, files, Delegation.OpenTerminal(custody, planned, outcome), files);
  }

  lemma ReachesTerminal(job: Delegation.Job, me: Call, env: Delegation.Env, base: Files)
    requires Launchable(job, env) && NoEvidence(base, job.invocation.key)
    ensures var custody, outcome := RunCustody(job.root, job.invocation), OutcomeOf(env);
      Reaches(job, me, env, base,
              Delegation.CommitOutcome(custody, Planned(job.root, job.invocation, outcome), outcome, Start),
              WithTerminal(base, job, me, outcome))
  {
    var custody, outcome := RunCustody(job.root, job.invocation), OutcomeOf(env);
    var planned := Planned(job.root, job.invocation, outcome);
    var files, path := WithRun(base, job, me), TerminalPath(job.invocation.key);
    ReachesPlan(job, me, env, base);
    var begun: Files := files[path := File(me, None)];
    var write := Delegation.WriteTerminal(custody, planned, outcome);
    Then(job, me, env, base, Delegation.OpenTerminal(custody, planned, outcome), files, write, begun);
    assert begun[path := Whole(me, TerminalDoc(planned, outcome))] == WithTerminal(base, job, me, outcome);
    Then(job, me, env, base, write, begun,
         Delegation.CommitOutcome(custody, planned, outcome, Start), WithTerminal(base, job, me, outcome));
  }

  lemma ReachesTornResult(job: Delegation.Job, me: Call, env: Delegation.Env, base: Files)
    requires Launchable(job, env) && NoEvidence(base, job.invocation.key)
    ensures var custody, outcome := RunCustody(job.root, job.invocation), OutcomeOf(env);
      Reaches(job, me, env, base,
              Delegation.CommitOutcome(custody, Planned(job.root, job.invocation, outcome), outcome,
                                       Write(Sealed(job.invocation, Some(outcome)))),
              WithTerminal(base, job, me, outcome)[ResultPath(job.invocation.key) := File(me, None)])
  {
    var custody, outcome := RunCustody(job.root, job.invocation), OutcomeOf(env);
    var planned, record := Planned(job.root, job.invocation, outcome), Sealed(job.invocation, Some(outcome));
    var files := WithTerminal(base, job, me, outcome);
    CommitSeals(job.invocation, outcome);
    ReachesTerminal(job, me, env, base);
    var open := Delegation.CommitOutcome(custody, planned, outcome, Open(record));
    Then(job, me, env, base, Delegation.CommitOutcome(custody, planned, outcome, Start), files, open, files);
    Then(job, me, env, base, open, files, Delegation.CommitOutcome(custody, planned, outcome, Write(record)),
         files[ResultPath(job.invocation.key) := File(me, None)]);
  }

  lemma ReachesTornCompletion(job: Delegation.Job, me: Call, env: Delegation.Env, base: Files)
    requires Launchable(job, env) && NoEvidence(base, job.invocation.key)
    ensures var outcome := OutcomeOf(env);
      Reaches(job, me, env, base,
              Delegation.WriteCompletion(Planned(job.root, job.invocation, outcome), outcome, false),
              WithResult(base, job, me, outcome)[CompletionPath(job.invocation.key) := File(me, None)])
  {
    var custody, outcome := RunCustody(job.root, job.invocation), OutcomeOf(env);
    var planned, record := Planned(job.root, job.invocation, outcome), Sealed(job.invocation, Some(outcome));
    var path := ResultPath(job.invocation.key);
    var begun: Files := WithTerminal(base, job, me, outcome)[path := File(me, None)];
    var files := WithResult(base, job, me, outcome);
    CommitSeals(job.invocation, outcome);
    ReachesTornResult(job, me, env, base);
    var answer := Delegation.CommitOutcome(custody, planned, outcome, Done(Returned(record, planned)));
    assert begun[path := Whole(me, EffectDoc(record))] == files;
    Then(job, me, env, base, Delegation.CommitOutcome(custody, planned, outcome, Write(record)), begun, answer, files);
    Then(job, me, env, base, answer, files, Delegation.OpenCompletion(planned, outcome, false), files);
    Then(job, me, env, base, Delegation.OpenCompletion(planned, outcome, false), files,
         Delegation.WriteCompletion(planned, outcome, false),
         files[CompletionPath(job.invocation.key) := File(me, None)]);
  }

  // ----- what the first call answers -----

  /** A first call that is offered, revalidated and gets its worker's return answers exactly that
      return and leaves all five files of its effect complete, beside what was there. */
  lemma FirstCallAnswers(job: Delegation.Job, me: Call, env: Delegation.Env, base: Files)
    requires Launchable(job, env) && NoEvidence(base, job.invocation.key)
    ensures var outcome := Outcome("applied", ["delegation-execution"], env.worked.value);
      var planned := Planned(job.root, job.invocation, outcome);
      Delegation.Leads(job, me, env, Delegation.ReadRun, base, Delegation.Finished(Some((outcome, planned))),
                       WithCompletion(base, job, me, outcome))
  {
    var outcome := OutcomeOf(env);
    var planned, path := Planned(job.root, job.invocation, outcome), CompletionPath(job.invocation.key);
    var begun: Files := WithResult(base, job, me, outcome)[path := File(me, None)];
    ReachesTornCompletion(job, me, env, base);
    assert begun[path := Whole(me, RunDoc(job.invocation, planned))] == WithCompletion(base, job, me, outcome);
    Then(job, me, env, base, Delegation.WriteCompletion(planned, outcome, false), begun,
         Delegation.Finished(Some((outcome, planned))), WithCompletion(base, job, me, outcome));
  }

  /** One that is not revalidated, or whose worker does not return, refuses with no outcome on file. */
  lemma FirstCallRefuses(job: Delegation.Job, me: Call, env: Delegation.Env, base: Files)
    requires Offered(job) && NoEvidence(base, job.invocation.key) && (!env.revalidated || env.worked.None?)
    ensures Delegation.Leads(job, me, env, Delegation.ReadRun, base, Delegation.Finished(None), WithRun(base, job, me))
  {
    var custody, files := RunCustody(job.root, job.invocation), WithRun(base, job, me);
    ReachesRevalidation(job, me, env, base);
    if env.revalidated {
      Then(job, me, env, base, Delegation.Revalidate(custody), files, Delegation.Launch(custody), files);
      Then(job, me, env, base, Delegation.Launch(custody), files, Delegation.Stop, files);
    } else {
      Then(job, me, env, base, Delegation.Revalidate(custody), files, Delegation.Stop, files);
    }
  }

  /** An invocation that is not offered here, or whose effect was attempted or committed without a
      run file, is refused and nothing changes. */
  lemma UnofferedCallRefuses(job: Delegation.Job, me: Call, env: Delegation.Env, base: Files)
    requires RunPath(job.invocation.key) !in base
    requires
      || job.invocation.key == "" || job.invocation.target != job.root || job.invocation.kind != INVOCATION_KIND
      || job.invocation !in job.decision.ready
      || AttemptPath(job.invocation.key) in base || ResultPath(job.invocation.key) in base
      || TerminalPath(job.invocation.key) in base || CompletionPath(job.invocation.key) in base
    ensures Delegation.Leads(job, me, env, Delegation.ReadRun, base, Delegation.Finished(None), base)
  {
    if TerminalPath(job.invocation.key) in base || CompletionPath(job.invocation.key) in base {
      UnownedIsRefused(job, me, env, base);
    } else {
      UnadmittedIsRefused(job, me, env, base);
    }
  }

  lemma UnownedIsRefused(job: Delegation.Job, me: Call, env: Delegation.Env, base: Files)
    requires RunPath(job.invocation.key) !in base
    requires TerminalPath(job.invocation.key) in base || CompletionPath(job.invocation.key) in base
    ensures Reaches(job, me, env, base, Delegation.Stop, base)
  {
    Delegation.Here(job, me, env, base);
    Then(job, me, env, base, Delegation.ReadRun, base, Delegation.UnownedCompletion, base);
    if CompletionPath(job.invocation.key) in base {
      Then(job, me, env, base, Delegation.UnownedCompletion, base, Delegation.Stop, base);
    } else {
      Then(job, me, env, base, Delegation.UnownedCompletion, base, Delegation.UnownedTerminal, base);
      Then(job, me, env, base, Delegation.UnownedTerminal, base, Delegation.Stop, base);
    }
  }

  lemma UnadmittedIsRefused(job: Delegation.Job, me: Call, env: Delegation.Env, base: Files)
    requires RunPath(job.invocation.key) !in base
    requires TerminalPath(job.invocation.key) !in base && CompletionPath(job.invocation.key) !in base
    requires
      || job.invocation.key == "" || job.invocation.target != job.root || job.invocation.kind != INVOCATION_KIND
      || job.invocation !in job.decision.ready
      || AttemptPath(job.invocation.key) in base || ResultPath(job.invocation.key) in base
    ensures Reaches(job, me, env, base, Delegation.Stop, base)
  {
    var record, failed := Sealed(job.invocation, None), Delegation.Admitting(None, Done(Failed));
    var stat, open := Delegation.Admitting(None, Stat(record)), Delegation.Admitting(None, Open(record));
    var start := Delegation.Admitting(None, Start);
    ReachesAdmission(job, me, env, base);
    if Delegation.Step(job, start, me, base, env) == (failed, base) {
      Then(job, me, env, base, start, base, failed, base);
    } else {
      Then(job, me, env, base, start, base, stat, base);
      if ResultPath(job.invocation.key) in base {
        Then(job, me, env, base, stat, base, failed, base);
      } else {
        Then(job, me, env, base, stat, base, open, base);
        Then(job, me, env, base, open, base, failed, base);
      }
    }
    Then(job, me, env, base, failed, base, Delegation.Stop, base);
  }

  /** A run file that is torn, or another invocation's, stops every call. */
  lemma ForeignRunRefuses(job: Delegation.Job, me: Call, env: Delegation.Env, base: Files)
    requires RunPath(job.invocation.key) in base
    requires var doc := base[RunPath(job.invocation.key)].doc;
      doc.None? || !doc.value.RunDoc? || doc.value.invocation != job.invocation
    ensures Delegation.Leads(job, me, env, Delegation.ReadRun, base, Delegation.Finished(None), base)
  {
    Delegation.Here(job, me, env, base);
    Then(job, me, env, base, Delegation.ReadRun, base, Delegation.Stop, base);
  }

  /** So does a completion file that is torn, another invocation's, or of another attempt. */
  lemma ForeignCompletionRefuses(job: Delegation.Job, me: Call, env: Delegation.Env, base: Files, run: Custody)
    requires Has(base, RunPath(job.invocation.key), RunDoc(job.invocation, run))
    requires CompletionPath(job.invocation.key) in base
    requires var doc := base[CompletionPath(job.invocation.key)].doc;
      doc.None? || !doc.value.RunDoc? || doc.value.invocation != job.invocation ||
      doc.value.custody.attempt != run.attempt
    ensures Delegation.Leads(job, me, env, Delegation.ReadRun, base, Delegation.Finished(None), base)
  {
    Delegation.Here(job, me, env, base);
    Then(job, me, env, base, Delegation.ReadRun, base, Delegation.ReadCompletion(run), base);
    Then(job, me, env, base, Delegation.ReadCompletion(run), base, Delegation.Stop, base);
  }

  /** And a terminal file that is torn, of another attempt, or does not name its future result. */
  lemma ForeignTerminalRefuses(job: Delegation.Job, me: Call, env: Delegation.Env, base: Files, run: Custody)
    requires Has(base, RunPath(job.invocation.key), RunDoc(job.invocation, run)) && run.committed.None?
    requires CompletionPath(job.invocation.key) !in base && TerminalPath(job.invocation.key) in base
    requires var doc := base[TerminalPath(job.invocation.key)].doc;
      doc.None? || !doc.value.TerminalDoc? || doc.value.custody.attempt != run.attempt ||
      doc.value.custody.committed.None?
    ensures Delegation.Leads(job, me, env, Delegation.ReadRun, base, Delegation.Finished(None), base)
  {
    Delegation.Here(job, me, env, base);
    Then(job, me, env, base, Delegation.ReadRun, base, Delegation.ReadCompletion(run), base);
    Then(job, me, env, base, Delegation.ReadCompletion(run), base, Delegation.ReadTerminal(run), base);
    var next := Delegation.AfterTerminal(run, base[TerminalPath(job.invocation.key)].doc);
    Then(job, me, env, base, Delegation.ReadTerminal(run), base, next, base);
    if next.Recover? {
      ForeignPlanRefuses(job, me, env, base, run, next.planned, next.outcome);
    }
  }

  lemma ForeignPlanRefuses(job: Delegation.Job, me: Call, env: Delegation.Env, base: Files, run: Custody,
                           planned: Custody, outcome: Outcome)
    requires planned.attempt != run.attempt || planned.committed.None?
    requires Reaches(job, me, env, base, Delegation.Recover(run, planned, outcome, Start), base)
    ensures Reaches(job, me, env, base, Delegation.Stop, base)
  {
    var request := Prepare(planned, outcome);
    var first := Effects.Step(job.root, request, Start, me, base).0;
    Then(job, me, env, base, Delegation.Recover(run, planned, outcome, Start), base,
         Delegation.Recover(run, planned, outcome, first), base);
    var done := first;
    if !first.Done? {
      done := Effects.Step(job.root, request, first, me, base).0;
      Then(job, me, env, base, Delegation.Recover(run, planned, outcome, first), base,
           Delegation.Recover(run, planned, outcome, done), base);
    }
    Then(job, me, env, base, Delegation.Recover(run, planned, outcome, done), base, Delegation.Stop, base);
  }

  /** A run that was interrupted before its terminal file was complete is never taken up again: its
      worker may have run. */
  lemma InterruptedRunRefuses(job: Delegation.Job, me: Call, env: Delegation.Env, base: Files)
    requires Delegation.KeyOk(job.root, base, job.invocation.key)
    requires Has(base, RunPath(job.invocation.key), RunDoc(job.invocation, RunCustody(job.root, job.invocation)))
    requires !Full(base, TerminalPath(job.invocation.key))
    ensures Delegation.Leads(job, me, env, Delegation.ReadRun, base, Delegation.Finished(None), base)
  {
    var custody := RunCustody(job.root, job.invocation);
    Delegation.Here(job, me, env, base);
    Then(job, me, env, base, Delegation.ReadRun, base, Delegation.ReadCompletion(custody), base);
    Then(job, me, env, base, Delegation.ReadCompletion(custody), base, Delegation.ReadTerminal(custody), base);
    if TerminalPath(job.invocation.key) in base {
      Then(job, me, env, base, Delegation.ReadTerminal(custody), base, Delegation.Stop, base);
    } else {
      var start := Delegation.Admitting(Some(custody), Start);
      Then(job, me, env, base, Delegation.ReadTerminal(custody), base, start, base);
      UncertainIsRefused(job, me, env, base);
    }
  }

  lemma UncertainIsRefused(job: Delegation.Job, me: Call, env: Delegation.Env, base: Files)
    requires Reaches(job, me, env, base, Delegation.Admitting(Some(RunCustody(job.root, job.invocation)), Start), base)
    ensures Reaches(job, me, env, base, Delegation.Stop, base)
  {
    var start := Delegation.Admitting(Some(RunCustody(job.root, job.invocation)), Start);
    var (answer, files) := Delegation.Step(job, start, me, base, env);
    Then(job, me, env, base, start, base, answer, base);
    Then(job, me, env, base, answer, base, Delegation.Stop, base);
  }

  /** A complete terminal is not recovered, and nothing is written, by a call that is not revalidated. */
  lemma UnrevalidatedRecoveryRefuses(job: Delegation.Job, me: Call, env: Delegation.Env, base: Files, outcome: Outcome)
    requires Delegation.Recoverable(job, base, outcome) && CompletionPath(job.invocation.key) !in base
      && !env.revalidated
    ensures Delegation.Leads(job, me, env, Delegation.ReadRun, base, Delegation.Finished(None), base)
  {
    var run, planned := RunCustody(job.root, job.invocation), Planned(job.root, job.invocation, outcome);
    var record := Sealed(job.invocation, Some(outcome));
    CommitSeals(job.invocation, outcome);
    assert Delegation.Runs(job, base, run);
    Delegation.Here(job, me, env, base);
    Then(job, me, env, base, Delegation.ReadRun, base, Delegation.ReadCompletion(run), base);
    Then(job, me, env, base, Delegation.ReadCompletion(run), base, Delegation.ReadTerminal(run), base);
    var start := Delegation.Recover(run, planned, outcome, Start);
    var stat := Delegation.Recover(run, planned, outcome, Stat(record));
    Then(job, me, env, base, Delegation.ReadTerminal(run), base, start, base);
    Then(job, me, env, base, start, base, stat, base);
    var (answer, files) := Delegation.Step(job, stat, me, base, env);
    Then(job, me, env, base, stat, base, answer, base);
    Then(job, me, env, base, answer, base, Delegation.Stop, base);
  }

  /** Over a complete completion file a call replays its outcome exactly while the operation still
      means the same; it changes no file. */
  lemma CompletedReplaysExactly(job: Delegation.Job, me: Call, env: Delegation.Env, base: Files, outcome: Outcome)
    requires Delegation.Recoverable(job, base, outcome)
    requires Has(base, CompletionPath(job.invocation.key),
                 RunDoc(job.invocation, Planned(job.root, job.invocation, outcome)))
    ensures Delegation.Leads(job, me, env, Delegation.ReadRun, base,
      if Delegation.StillCurrent(job) then
        Delegation.Finished(Some((outcome, Planned(job.root, job.invocation, outcome))))
      else Delegation.Finished(None), base)
  {
    var run, planned := RunCustody(job.root, job.invocation), Planned(job.root, job.invocation, outcome);
    CommitSeals(job.invocation, outcome);
    assert Delegation.Runs(job, base, run) && Delegation.Resulted(base, job.invocation, outcome);
    Delegation.Here(job, me, env, base);
    Then(job, me, env, base, Delegation.ReadRun, base, Delegation.ReadCompletion(run), base);
    var start := Delegation.Admitting(Some(planned), Start);
    Then(job, me, env, base, Delegation.ReadCompletion(run), base, start, base);
    if Delegation.StillCurrent(job) {
      Delegation.AdmissionReplays(job, me, env, Delegation.ReadRun, base, base, outcome);
    } else {
      var reading := Delegation.Admitting(Some(planned), ReadResult(Sealed(job.invocation, None)));
      Then(job, me, env, base, start, base, reading, base);
      var failed := Delegation.Admitting(Some(planned), Done(Failed));
      Then(job, me, env, base, reading, base, failed, base);
      Then(job, me, env, base, failed, base, Delegation.Stop, base);
    }
  }

  // ----- the witnesses -----

  /** A reached state with a complete terminal file that no later call of the job replays. */
  ghost predicate Refusing(job: Delegation.Job, outcome: Outcome, run: seq<Delegation.Host>) {
    && Delegation.Run(job.root, run)
    && var files := run[|run| - 1].files;
       Delegation.Terminated(job.root, files, job.invocation, outcome)
       && forall later: Call, env: Delegation.Env :: env.revalidated ==> Refuses(job, later, env, files)
  }

  ghost predicate Refuses(job: Delegation.Job, later: Call, env: Delegation.Env, files: Files) {
    exists files' :: Delegation.Leads(job, later, env, Delegation.ReadRun, files, Delegation.Stop, files')
  }

  lemma TornRefuses(job: Delegation.Job, env: Delegation.Env, run: seq<Delegation.Host>)
    requires Launchable(job, env) && Delegation.StillCurrent(job) && Delegation.Run(job.root, run)
    requires var files := run[|run| - 1].files;
      && Has(files, AttemptPath(job.invocation.key), EffectDoc(Sealed(job.invocation, None)))
      && Delegation.Terminated(job.root, files, job.invocation, OutcomeOf(env))
      && (TornFile(files, ResultPath(job.invocation.key)) || TornFile(files, CompletionPath(job.invocation.key)))
    ensures Refusing(job, OutcomeOf(env), run)
  {
    var files := run[|run| - 1].files;
    Delegation.TerminalStateIsRecoverable(job.root, run, |run| - 1, job);
    forall later: Call, e: Delegation.Env ensures e.revalidated ==> Refuses(job, later, e, files) {
      if e.revalidated {
        var files' := Delegation.TerminalReplays(job, later, files, e, OutcomeOf(env));
      }
    }
  }

  /** For every job that can be launched there is a run that leaves its result file torn beside a
      complete terminal file. */
  lemma TornResultIsReachable(job: Delegation.Job, env: Delegation.Env, me: Call) returns (run: seq<Delegation.Host>)
    requires Launchable(job, env) && Delegation.StillCurrent(job)
    ensures Refusing(job, OutcomeOf(env), run) && TornFile(run[|run| - 1].files, ResultPath(job.invocation.key))
  {
    ReachesTornResult(job, me, env, map[]);
    var outcome := OutcomeOf(env);
    var files: Files := WithTerminal(map[], job, me, outcome)[ResultPath(job.invocation.key) := File(me, None)];
    run := LeadsIsReached(job, me, env,
      Delegation.CommitOutcome(RunCustody(job.root, job.invocation), Planned(job.root, job.invocation, outcome),
                               outcome,
                               Write(Sealed(job.invocation, Some(outcome)))), files);
    TornRefuses(job, env, run);
  }

  /** And one that leaves its completion file torn. */
  lemma TornCompletionIsReachable(job: Delegation.Job, env: Delegation.Env, me: Call)
    returns (run: seq<Delegation.Host>)
    requires Launchable(job, env) && Delegation.StillCurrent(job)
    ensures Refusing(job, OutcomeOf(env), run) && TornFile(run[|run| - 1].files, CompletionPath(job.invocation.key))
  {
    ReachesTornCompletion(job, me, env, map[]);
    var outcome := OutcomeOf(env);
    var files: Files := WithResult(map[], job, me, outcome)[CompletionPath(job.invocation.key) := File(me, None)];
    run := LeadsIsReached(job, me, env,
      Delegation.WriteCompletion(Planned(job.root, job.invocation, outcome), outcome, false), files);
    TornRefuses(job, env, run);
  }

  /** Such jobs exist. */
  lemma SomeJobIsLaunchable() returns (job: Delegation.Job, env: Delegation.Env)
    ensures Launchable(job, env) && Delegation.StillCurrent(job)
  {
    var invocation := Invocation(INVOCATION_KIND, "k", "o", "r", "op", "v", ["delegation-execution"], "", "", "");
    job := Delegation.Job("r", Effects.Decision({invocation}, map["op" := "v"]), invocation);
    env := Delegation.Env(true, Some(""));
  }
}
