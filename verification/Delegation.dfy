/** Delegated execution (src/core/src/native_delegation.rs, `execute`) over the effect store.
    Each call walks through `Pc`, one file operation or one outside action a step; calls for
    any invocations interleave freely and may stop for ever at any point. */
module Delegation {
  import opened Wrappers
  import opened Effects
  import Machine

  /** What a step may get from outside: whether revalidation succeeds, and the worker's
      return, if the process ran. */
  datatype Env = Env(revalidated: bool, worked: Option<string>)

  type Pc = DelegationPc

  datatype DelegationPc =
    | ReadRun
    | UnownedCompletion
    | UnownedTerminal
    | ReadCompletion(run: Custody)
    | ReadTerminal(run: Custody)
    | Recover(run: Custody, planned: Custody, outcome: Outcome, sub: Effects.Pc)
    | ReadCommitted(run: Custody, planned: Custody, outcome: Outcome)
    | Recommit(run: Custody, planned: Custody, outcome: Outcome, sub: Effects.Pc)
    | InspectPlanned(run: Custody, planned: Custody, outcome: Outcome, sub: Effects.Pc)
    | Admitting(custody: Option<Custody>, sub: Effects.Pc)
    | OpenRun(run: Custody)
    | WriteRun(run: Custody)
    | Revalidate(run: Custody)
    | Launch(run: Custody)
    | Plan(run: Custody, outcome: Outcome, sub: Effects.Pc)
    | OpenTerminal(run: Custody, planned: Custody, outcome: Outcome)
    | WriteTerminal(run: Custody, planned: Custody, outcome: Outcome)
    | CommitOutcome(run: Custody, planned: Custody, outcome: Outcome, sub: Effects.Pc)
    | OpenCompletion(planned: Custody, outcome: Outcome, recovered: bool)
    | WriteCompletion(planned: Custody, outcome: Outcome, recovered: bool)
    | Finished(result: Option<(Outcome, Custody)>)

  datatype Job = Job(root: string, decision: Decision, invocation: Invocation)

  function Applied(value: string): Outcome {
    Outcome("applied", ["delegation-execution"], value)
  }

  /** The store request a point of the call is in the middle of. */
  function SubRequest(job: Job, pc: Pc): Request
    requires pc.Recover? || pc.Recommit? || pc.InspectPlanned? || pc.Admitting? || pc.Plan? || pc.CommitOutcome?
  {
    match pc
    case Recover(_, planned, outcome, _) => Prepare(planned, outcome)
    case Recommit(run, _, outcome, _) => Commit(run, outcome)
    case InspectPlanned(_, planned, _, _) => Inspect(planned)
    case Admitting(custody, _) => Admit(job.decision, job.invocation, custody)
    case Plan(run, outcome, _) => Prepare(run, outcome)
    case CommitOutcome(run, _, outcome, _) => Commit(run, outcome)
  }

  predicate InStore(pc: Pc) {
    pc.Recover? || pc.Recommit? || pc.InspectPlanned? || pc.Admitting? || pc.Plan? || pc.CommitOutcome?
  }

  const Stop: Pc := Finished(None)

  /** What follows when the store has answered. */
  function AfterStore(job: Job, pc: Pc, reply: Reply, env: Env): Pc
    requires InStore(pc)
  {
    match pc
    case Recover(run, planned, outcome, _) =>
      if reply.Returned? && reply.record.invocation == job.invocation && reply.custody == planned
         && planned.attempt == run.attempt && env.revalidated
      then ReadCommitted(run, planned, outcome) else Stop
    case Recommit(run, planned, outcome, _) =>
      if reply.Returned? then InspectPlanned(run, planned, outcome, Start) else Stop
    case InspectPlanned(_, planned, outcome, _) =>
      if reply.Returned? then OpenCompletion(planned, outcome, true) else Stop
    case Admitting(_, _) =>
      if !reply.Admitted? then Stop
      else match reply.disposition {
        case Execute => OpenRun(reply.custody)
        case Replay =>
          if reply.record.outcome.Some? then Finished(Some((reply.record.outcome.value, reply.custody))) else Stop
        case Uncertain => Stop
      }
    case Plan(run, outcome, _) =>
      if reply.Returned? then OpenTerminal(run, reply.custody, outcome) else Stop
    case CommitOutcome(_, _, outcome, _) =>
      if reply.Returned? then OpenCompletion(reply.custody, outcome, false) else Stop
  }

  /** What follows when the run file has been read, or found torn or foreign. */
  function AfterRun(job: Job, doc: Option<Doc>): Pc {
    match doc
    case Some(RunDoc(invocation, custody)) => if invocation == job.invocation then ReadCompletion(custody) else Stop
    case _ => Stop
  }

  function AfterCompletion(job: Job, run: Custody, doc: Option<Doc>): Pc {
    match doc
    case Some(RunDoc(invocation, custody)) =>
      if invocation == job.invocation && custody.attempt == run.attempt
      then if custody.committed.None? then ReadTerminal(custody) else Admitting(Some(custody), Start)
      else Stop
    case _ => Stop
  }

  function AfterTerminal(run: Custody, doc: Option<Doc>): Pc {
    match doc
    case Some(TerminalDoc(planned, outcome)) => Recover(run, planned, outcome, Start)
    case _ => Stop
  }

  function SetSub(pc: Pc, sub: Effects.Pc): Pc
    requires InStore(pc)
  {
    pc.(sub := sub)
  }

  function OpenFile(files: Files, path: Path, me: Call, next: Pc): (Pc, Files) {
    if path in files then (Stop, files) else (next, files[path := File(me, None)])
  }

  function Step(job: Job, pc: Pc, me: Call, files: Files, env: Env): (Pc, Files) {
    var key := job.invocation.key;
    if InStore(pc) then
      if pc.sub.Done? then (AfterStore(job, pc, pc.sub.reply, env), files)
      else
        var (sub, files') := Effects.Step(job.root, SubRequest(job, pc), pc.sub, me, files);
        (SetSub(pc, sub), files')
    else match pc
      case ReadRun =>
        (if RunPath(key) in files then AfterRun(job, files[RunPath(key)].doc) else UnownedCompletion, files)
      case UnownedCompletion => (if CompletionPath(key) in files then Stop else UnownedTerminal, files)
      case UnownedTerminal => (if TerminalPath(key) in files then Stop else Admitting(None, Start), files)
      case ReadCompletion(run) =>
        (if CompletionPath(key) in files then AfterCompletion(job, run, files[CompletionPath(key)].doc)
         else if run.committed.None? then ReadTerminal(run) else Admitting(Some(run), Start), files)
      case ReadTerminal(run) =>
        (if TerminalPath(key) in files then AfterTerminal(run, files[TerminalPath(key)].doc)
         else Admitting(Some(run), Start), files)
      case ReadCommitted(run, planned, outcome) =>
        (if planned.committed.None? then Stop
         else if planned.committed.value.path in files then InspectPlanned(run, planned, outcome, Start)
         else Recommit(run, planned, outcome, Start), files)
      case OpenRun(run) => OpenFile(files, RunPath(key), me, WriteRun(run))
      case WriteRun(run) =>
        (Revalidate(run), files[RunPath(key) := File(me, Some(RunDoc(job.invocation, run)))])
      case Revalidate(run) => (if env.revalidated then Launch(run) else Stop, files)
      case Launch(run) =>
        (if env.worked.Some? then Plan(run, Applied(env.worked.value), Start) else Stop, files)
      case OpenTerminal(run, planned, outcome) =>
        OpenFile(files, TerminalPath(key), me, WriteTerminal(run, planned, outcome))
      case WriteTerminal(run, planned, outcome) =>
        (CommitOutcome(run, planned, outcome, Start),
         files[TerminalPath(key) := File(me, Some(TerminalDoc(planned, outcome)))])
      case OpenCompletion(planned, outcome, recovered) =>
        OpenFile(files, CompletionPath(key), me, WriteCompletion(planned, outcome, recovered))
      case WriteCompletion(planned, outcome, recovered) =>
        (if recovered then Admitting(Some(planned), Start) else Finished(Some((outcome, planned))),
         files[CompletionPath(key) := File(me, Some(RunDoc(job.invocation, planned)))])
      case Finished(_) => (pc, files)
  }

  // ----- what the files of one effect say to each other -----

  ghost predicate Terminated(root: string, files: Files, invocation: Invocation, outcome: Outcome) {
    Has(files, TerminalPath(invocation.key), TerminalDoc(Planned(root, invocation, outcome), outcome))
  }

  ghost predicate Resulted(files: Files, invocation: Invocation, outcome: Outcome) {
    Has(files, ResultPath(invocation.key), EffectDoc(Sealed(invocation, Some(outcome))))
  }

  ghost predicate RunOk(root: string, files: Files, key: string) {
    && (RunPath(key) in files ==> Full(files, AttemptPath(key)))
    && (Full(files, RunPath(key)) ==>
          var doc := files[RunPath(key)].doc.value;
          && doc.RunDoc? && doc.invocation.key == key
          && Attempted(root, files, doc.invocation) && doc.custody == RunCustody(root, doc.invocation))
  }

  ghost predicate TerminalOk(root: string, files: Files, key: string) {
    && (TerminalPath(key) in files ==> Full(files, RunPath(key)))
    && (Full(files, TerminalPath(key)) ==>
          var doc := files[TerminalPath(key)].doc.value;
          && doc.TerminalDoc?
          && var invocation := doc.custody.attempt.revision.invocation;
          && invocation.key == key
          && Attempted(root, files, invocation) && ValidOutcome(invocation, doc.outcome)
          && doc.custody == Planned(root, invocation, doc.outcome))
  }

  ghost predicate ResultOk(root: string, files: Files, key: string) {
    && (ResultPath(key) in files ==> Full(files, TerminalPath(key)))
    && (Full(files, ResultPath(key)) ==>
          var doc := files[ResultPath(key)].doc.value;
          && doc.EffectDoc? && doc.record.outcome.Some?
          && var invocation, outcome := doc.record.invocation, doc.record.outcome.value;
          && invocation.key == key
          && Terminated(root, files, invocation, outcome) && doc.record == Sealed(invocation, Some(outcome)))
  }

  ghost predicate CompletionOk(root: string, files: Files, key: string) {
    && (CompletionPath(key) in files ==> Full(files, ResultPath(key)))
    && (Full(files, CompletionPath(key)) ==>
          var doc := files[CompletionPath(key)].doc.value;
          && doc.RunDoc? && doc.custody.committed.Some? && doc.custody.committed.value.revision.outcome.Some?
          && var outcome := doc.custody.committed.value.revision.outcome.value;
          && doc.invocation.key == key
          && Terminated(root, files, doc.invocation, outcome) && Resulted(files, doc.invocation, outcome)
          && doc.custody == Planned(root, doc.invocation, outcome))
  }

  ghost predicate KeyOk(root: string, files: Files, key: string) {
    && AttemptOk(root, files, key)
    && RunOk(root, files, key)
    && TerminalOk(root, files, key)
    && ResultOk(root, files, key)
    && CompletionOk(root, files, key)
  }

  ghost predicate AllKeysOk(root: string, files: Files) {
    forall key :: KeyOk(root, files, key)
  }

  // ----- what a call knows at each point -----

  /** The call's invocation has its exact run file, hence its attempt. */
  ghost predicate Runs(job: Job, files: Files, run: Custody) {
    && Attempted(job.root, files, job.invocation)
    && run == RunCustody(job.root, job.invocation)
    && Has(files, RunPath(job.invocation.key), RunDoc(job.invocation, run))
  }

  /** This call created the attempt file of its effect. */
  ghost predicate Won(job: Job, files: Files, me: Call, run: Custody) {
    && Attempted(job.root, files, job.invocation)
    && files[AttemptPath(job.invocation.key)].creator == me
    && run == RunCustody(job.root, job.invocation)
  }

  ghost predicate Plans(job: Job, files: Files, planned: Custody, outcome: Outcome) {
    && Attempted(job.root, files, job.invocation)
    && ValidOutcome(job.invocation, outcome)
    && planned == Planned(job.root, job.invocation, outcome)
  }

  ghost predicate Torn(files: Files, path: Path, me: Call) {
    path in files && files[path] == File(me, None)
  }

  /** The outcome is on file, in the terminal and in the result, and the custody names it. */
  ghost predicate Answered(job: Job, files: Files, outcome: Outcome, custody: Custody) {
    && custody == Planned(job.root, job.invocation, outcome)
    && Terminated(job.root, files, job.invocation, outcome) && Resulted(files, job.invocation, outcome)
  }

  /** The custody of a retained run: its own attempt, and its own result once there is one. */
  ghost predicate Retains(job: Job, files: Files, custody: Custody) {
    && Attempted(job.root, files, job.invocation)
    && custody.attempt == AttemptEvidence(job.root, Sealed(job.invocation, None))
    && (custody.committed.Some? ==>
          var outcome := custody.committed.value.revision.outcome;
          outcome.Some? && Answered(job, files, outcome.value, custody))
  }

  ghost predicate PcOk(job: Job, files: Files, me: Call, pc: Pc) {
    && (InStore(pc) ==> Effects.PcOk(job.root, files, me, SubRequest(job, pc), pc.sub))
    && var key := job.invocation.key;
    match pc
    case ReadCompletion(run) => Runs(job, files, run)
    case ReadTerminal(run) => Runs(job, files, run)
    case Recover(run, planned, outcome, _) =>
      Runs(job, files, run) && Plans(job, files, planned, outcome)
          && Terminated(job.root, files, job.invocation, outcome)
    case ReadCommitted(run, planned, outcome) =>
      Runs(job, files, run) && Plans(job, files, planned, outcome)
          && Terminated(job.root, files, job.invocation, outcome)
    case Recommit(run, planned, outcome, _) =>
      Runs(job, files, run) && Plans(job, files, planned, outcome)
          && Terminated(job.root, files, job.invocation, outcome)
    case InspectPlanned(run, planned, outcome, _) =>
      Runs(job, files, run) && Plans(job, files, planned, outcome)
          && Terminated(job.root, files, job.invocation, outcome)
    case OpenRun(run) => Won(job, files, me, run)
    case WriteRun(run) => Won(job, files, me, run) && Torn(files, RunPath(key), me)
    case Revalidate(run) => Won(job, files, me, run) && Runs(job, files, run)
    case Launch(run) => Won(job, files, me, run) && Runs(job, files, run)
    case Plan(run, outcome, _) => Won(job, files, me, run) && Runs(job, files, run)
    case OpenTerminal(run, planned, outcome) =>
      Won(job, files, me, run) && Runs(job, files, run) && Plans(job, files, planned, outcome)
    case WriteTerminal(run, planned, outcome) =>
      Won(job, files, me, run) && Runs(job, files, run) && Plans(job, files, planned, outcome)
      && Torn(files, TerminalPath(key), me)
    case CommitOutcome(run, planned, outcome, _) =>
      Won(job, files, me, run) && Plans(job, files, planned, outcome)
          && Terminated(job.root, files, job.invocation, outcome)
    case OpenCompletion(planned, outcome, _) =>
      Plans(job, files, planned, outcome) && Terminated(job.root, files, job.invocation, outcome)
      && Resulted(files, job.invocation, outcome)
    case WriteCompletion(planned, outcome, _) =>
      Plans(job, files, planned, outcome) && Terminated(job.root, files, job.invocation, outcome)
      && Resulted(files, job.invocation, outcome) && Torn(files, CompletionPath(key), me)
    case Admitting(Some(custody), _) => Retains(job, files, custody)
    case Finished(Some((outcome, custody))) => Answered(job, files, outcome, custody)
    case _ => true
  }

  lemma Stable(job: Job, files: Files, files': Files, me: Call, other: Call, pc: Pc)
    requires PcOk(job, files, me, pc) && Touches(other, files, files') && me != other
    ensures PcOk(job, files', me, pc)
  {
    if InStore(pc) {
      Effects.Stable(job.root, files, files', me, other, SubRequest(job, pc), pc.sub);
    }
  }

  lemma StoreStepKeeps(job: Job, pc: Pc, me: Call, files: Files, env: Env)
    requires InStore(pc) && !pc.sub.Done?
    requires PcOk(job, files, me, pc) && AllKeysOk(job.root, files)
    ensures var (pc', files') := Step(job, pc, me, files, env);
            Touches(me, files, files') && PcOk(job, files', me, pc')
  {
    Effects.StepKeeps(job.root, files, me, SubRequest(job, pc), pc.sub);
  }

  lemma RecoveryAnswerKeeps(job: Job, pc: Pc, me: Call, files: Files, env: Env)
    requires (pc.Recover? || pc.Recommit? || pc.InspectPlanned?) && pc.sub.Done?
    requires PcOk(job, files, me, pc) && AttemptOk(job.root, files, job.invocation.key)
    ensures PcOk(job, files, me, AfterStore(job, pc, pc.sub.reply, env))
  {
  }

  lemma WinnerAnswerKeeps(job: Job, pc: Pc, me: Call, files: Files, env: Env)
    requires (pc.Admitting? || pc.Plan? || pc.CommitOutcome?) && pc.sub.Done?
    requires PcOk(job, files, me, pc) && AttemptOk(job.root, files, job.invocation.key)
    ensures PcOk(job, files, me, AfterStore(job, pc, pc.sub.reply, env))
  {
  }

  lemma AnswerKeeps(job: Job, pc: Pc, me: Call, files: Files, env: Env)
    requires InStore(pc) && pc.sub.Done?
    requires PcOk(job, files, me, pc) && AttemptOk(job.root, files, job.invocation.key)
    ensures PcOk(job, files, me, AfterStore(job, pc, pc.sub.reply, env))
  {
    if pc.Recover? || pc.Recommit? || pc.InspectPlanned? {
      RecoveryAnswerKeeps(job, pc, me, files, env);
    } else {
      WinnerAnswerKeeps(job, pc, me, files, env);
    }
  }

  predicate Writes(pc: Pc) {
    pc.OpenRun? || pc.WriteRun? || pc.OpenTerminal? || pc.WriteTerminal? || pc.OpenCompletion? || pc.WriteCompletion?
  }

  lemma ReadRunKeeps(job: Job, me: Call, files: Files)
    requires Full(files, RunPath(job.invocation.key)) && RunOk(job.root, files, job.invocation.key)
    ensures PcOk(job, files, me, AfterRun(job, files[RunPath(job.invocation.key)].doc))
  {
  }

  lemma ReadCompletionKeeps(job: Job, run: Custody, me: Call, files: Files)
    requires PcOk(job, files, me, ReadCompletion(run)) && Full(files, CompletionPath(job.invocation.key))
    requires CompletionOk(job.root, files, job.invocation.key)
    ensures PcOk(job, files, me, AfterCompletion(job, run, files[CompletionPath(job.invocation.key)].doc))
  {
  }

  lemma ReadTerminalKeeps(job: Job, run: Custody, me: Call, files: Files)
    requires PcOk(job, files, me, ReadTerminal(run)) && Full(files, TerminalPath(job.invocation.key))
    requires TerminalOk(job.root, files, job.invocation.key)
    ensures PcOk(job, files, me, AfterTerminal(run, files[TerminalPath(job.invocation.key)].doc))
  {
  }

  ghost predicate KeepsReading(job: Job, pc: Pc, me: Call, files: Files, env: Env) {
    Step(job, pc, me, files, env).1 == files && PcOk(job, files, me, Step(job, pc, me, files, env).0)
  }

  lemma OtherReadKeeps(job: Job, pc: Pc, me: Call, files: Files, env: Env)
    requires !InStore(pc) && !Writes(pc) && !pc.ReadRun? && !pc.ReadCompletion? && !pc.ReadTerminal?
    requires PcOk(job, files, me, pc) && KeyOk(job.root, files, job.invocation.key)
    ensures KeepsReading(job, pc, me, files, env)
  {
  }

  lemma RunReadKeeps(job: Job, pc: Pc, me: Call, files: Files, env: Env)
    requires pc.ReadRun? && PcOk(job, files, me, pc) && KeyOk(job.root, files, job.invocation.key)
    ensures KeepsReading(job, pc, me, files, env)
  {
    if Full(files, RunPath(job.invocation.key)) { ReadRunKeeps(job, me, files); }
  }

  lemma CompletionReadKeeps(job: Job, pc: Pc, me: Call, files: Files, env: Env)
    requires pc.ReadCompletion? && PcOk(job, files, me, pc) && KeyOk(job.root, files, job.invocation.key)
    ensures KeepsReading(job, pc, me, files, env)
  {
    if Full(files, CompletionPath(job.invocation.key)) { ReadCompletionKeeps(job, pc.run, me, files); }
  }

  lemma TerminalReadKeeps(job: Job, pc: Pc, me: Call, files: Files, env: Env)
    requires pc.ReadTerminal? && PcOk(job, files, me, pc) && KeyOk(job.root, files, job.invocation.key)
    ensures KeepsReading(job, pc, me, files, env)
  {
    if Full(files, TerminalPath(job.invocation.key)) { ReadTerminalKeeps(job, pc.run, me, files); }
  }

  lemma FileReadKeeps(job: Job, pc: Pc, me: Call, files: Files, env: Env)
    requires pc.ReadRun? || pc.ReadCompletion? || pc.ReadTerminal?
    requires PcOk(job, files, me, pc) && KeyOk(job.root, files, job.invocation.key)
    ensures KeepsReading(job, pc, me, files, env)
  {
    match pc {
      case ReadRun => RunReadKeeps(job, pc, me, files, env);
      case ReadCompletion(_) => CompletionReadKeeps(job, pc, me, files, env);
      case ReadTerminal(_) => TerminalReadKeeps(job, pc, me, files, env);
    }
  }

  lemma ReadStepKeeps(job: Job, pc: Pc, me: Call, files: Files, env: Env)
    requires !InStore(pc) && !Writes(pc)
    requires PcOk(job, files, me, pc) && KeyOk(job.root, files, job.invocation.key)
    ensures KeepsReading(job, pc, me, files, env)
  {
    if pc.ReadRun? || pc.ReadCompletion? || pc.ReadTerminal? {
      FileReadKeeps(job, pc, me, files, env);
    } else {
      OtherReadKeeps(job, pc, me, files, env);
    }
  }

  /** The file a writing point creates, and what it will hold. */
  function WrittenPath(job: Job, pc: Pc): Path
    requires Writes(pc)
  {
    var key := job.invocation.key;
    if pc.OpenRun? || pc.WriteRun? then RunPath(key)
    else if pc.OpenTerminal? || pc.WriteTerminal? then TerminalPath(key)
    else CompletionPath(key)
  }

  lemma WriteStepTouches(job: Job, pc: Pc, me: Call, files: Files, env: Env)
    requires Writes(pc) && PcOk(job, files, me, pc)
    ensures var files' := Step(job, pc, me, files, env).1;
            && Touches(me, files, files')
            && (files' == files || (WrittenPath(job, pc) in files' && files'
                                    == files[WrittenPath(job, pc) := files'[WrittenPath(job, pc)]]))
  {
    var files' := Step(job, pc, me, files, env).1;
    if files' != files {
      var path := WrittenPath(job, pc);
      PutTouches(files, path, me, files'[path].doc);
    }
  }

  lemma OpenKeeps(job: Job, pc: Pc, me: Call, files: Files, env: Env)
    requires (pc.OpenRun? || pc.OpenTerminal? || pc.OpenCompletion?) && PcOk(job, files, me, pc)
    ensures var (pc', files') := Step(job, pc, me, files, env); PcOk(job, files', me, pc')
  {
  }

  lemma WriteRunKeeps(job: Job, run: Custody, me: Call, files: Files, env: Env)
    requires PcOk(job, files, me, WriteRun(run))
    ensures var (pc', files') := Step(job, WriteRun(run), me, files, env); PcOk(job, files', me, pc')
  {
  }

  lemma WriteTerminalKeeps(job: Job, run: Custody, planned: Custody, outcome: Outcome, me: Call, files: Files, env: Env)
    requires PcOk(job, files, me, WriteTerminal(run, planned, outcome))
    ensures var (pc', files') := Step(job, WriteTerminal(run, planned, outcome), me, files, env);
            PcOk(job, files', me, pc')
  {
  }

  lemma WriteStepKeeps(job: Job, pc: Pc, me: Call, files: Files, env: Env)
    requires Writes(pc) && PcOk(job, files, me, pc)
    ensures var (pc', files') := Step(job, pc, me, files, env); PcOk(job, files', me, pc')
  {
    match pc {
      case WriteRun(run) => WriteRunKeeps(job, run, me, files, env);
      case WriteTerminal(run, planned, outcome) => WriteTerminalKeeps(job, run, planned, outcome, me, files, env);
      case WriteCompletion(_, _, _) =>
      case _ => OpenKeeps(job, pc, me, files, env);
    }
  }

  predicate OfKey(path: Path, key: string) {
    || path == AttemptPath(key) || path == ResultPath(key)
    || path == RunPath(key) || path == TerminalPath(key) || path == CompletionPath(key)
  }

  lemma OtherKeys(root: string, files: Files, path: Path, file: File, key: string)
    requires KeyOk(root, files, key) && !OfKey(path, key)
    ensures KeyOk(root, files[path := file], key)
  {
    var files' := files[path := file];
    assert AttemptPath(key) != path && ResultPath(key) != path && RunPath(key) != path
           && TerminalPath(key) != path && CompletionPath(key) != path;
  }

  lemma CreateAttempt(root: string, files: Files, invocation: Invocation, file: File)
    requires KeyOk(root, files, invocation.key) && !Full(files, AttemptPath(invocation.key))
    requires invocation.target == root && invocation.key != "" && Holding(file, EffectDoc(Sealed(invocation, None)))
    ensures KeyOk(root, files[AttemptPath(invocation.key) := file], invocation.key)
  {
  }

  lemma CreateRun(root: string, files: Files, invocation: Invocation, file: File)
    requires KeyOk(root, files, invocation.key) && !Full(files, RunPath(invocation.key))
    requires Attempted(root, files, invocation)
    requires Holding(file, RunDoc(invocation, RunCustody(root, invocation)))
    ensures KeyOk(root, files[RunPath(invocation.key) := file], invocation.key)
  {
  }

  lemma CreateTerminal(root: string, files: Files, invocation: Invocation, outcome: Outcome, file: File)
    requires KeyOk(root, files, invocation.key) && !Full(files, TerminalPath(invocation.key))
    requires Attempted(root, files, invocation) && ValidOutcome(invocation, outcome)
      && Full(files, RunPath(invocation.key))
    requires Holding(file, TerminalDoc(Planned(root, invocation, outcome), outcome))
    ensures KeyOk(root, files[TerminalPath(invocation.key) := file], invocation.key)
  {
  }

  lemma CreateResult(root: string, files: Files, invocation: Invocation, outcome: Outcome, file: File)
    requires KeyOk(root, files, invocation.key) && !Full(files, ResultPath(invocation.key))
    requires Terminated(root, files, invocation, outcome)
    requires Holding(file, EffectDoc(Sealed(invocation, Some(outcome))))
    ensures KeyOk(root, files[ResultPath(invocation.key) := file], invocation.key)
  {
  }

  lemma CreateCompletion(root: string, files: Files, invocation: Invocation, outcome: Outcome, file: File)
    requires KeyOk(root, files, invocation.key) && !Full(files, CompletionPath(invocation.key))
    requires Terminated(root, files, invocation, outcome) && Resulted(files, invocation, outcome)
    requires Holding(file, RunDoc(invocation, Planned(root, invocation, outcome)))
    ensures KeyOk(root, files[CompletionPath(invocation.key) := file], invocation.key)
  {
  }

  /** Creating the run, terminal or completion file of one's own effect. */
  lemma WriteStepKeepsKey(job: Job, pc: Pc, me: Call, files: Files, env: Env)
    requires Writes(pc) && PcOk(job, files, me, pc) && KeyOk(job.root, files, job.invocation.key)
    ensures KeyOk(job.root, Step(job, pc, me, files, env).1, job.invocation.key)
  {
    var files' := Step(job, pc, me, files, env).1;
    var key := job.invocation.key;
    if files' != files {
      if pc.OpenRun? || pc.WriteRun? {
        CreateRun(job.root, files, job.invocation, files'[RunPath(key)]);
      } else if pc.OpenTerminal? || pc.WriteTerminal? {
        CreateTerminal(job.root, files, job.invocation, pc.outcome, files'[TerminalPath(key)]);
      } else {
        CreateCompletion(job.root, files, job.invocation, pc.outcome, files'[CompletionPath(key)]);
      }
    }
  }

  /** Creating the attempt file or, for the outcome in the terminal file, the result file. */
  lemma StoreStepKeepsKey(job: Job, pc: Pc, me: Call, files: Files, env: Env)
    requires InStore(pc) && (pc.sub.Open? || pc.sub.Write?)
    requires PcOk(job, files, me, pc) && KeyOk(job.root, files, job.invocation.key)
    ensures KeyOk(job.root, Step(job, pc, me, files, env).1, job.invocation.key)
  {
    if pc.Admitting? {
      AttemptStepKeepsKey(job, pc, me, files, env);
    } else {
      ResultOfTheAttempt(job, pc, me, files);
      ResultStepKeepsKey(job, pc, me, files, env);
    }
  }

  lemma AttemptStepKeepsKey(job: Job, pc: Pc, me: Call, files: Files, env: Env)
    requires pc.Admitting? && (pc.sub.Open? || pc.sub.Write?)
    requires PcOk(job, files, me, pc) && KeyOk(job.root, files, job.invocation.key)
    ensures KeyOk(job.root, Step(job, pc, me, files, env).1, job.invocation.key)
  {
    var path := AttemptPath(job.invocation.key);
    if pc.sub.Write? || path !in files {
      CreateAttempt(job.root, files, job.invocation, Step(job, pc, me, files, env).1[path]);
    }
  }

  lemma ResultStepKeepsKey(job: Job, pc: Pc, me: Call, files: Files, env: Env)
    requires (pc.Recommit? || pc.CommitOutcome?) && (pc.sub.Open? || pc.sub.Write?)
    requires pc.sub.record == Sealed(job.invocation, Some(pc.outcome))
    requires PcOk(job, files, me, pc) && KeyOk(job.root, files, job.invocation.key)
    ensures KeyOk(job.root, Step(job, pc, me, files, env).1, job.invocation.key)
  {
    var path := ResultPath(job.invocation.key);
    if pc.sub.Write? || path !in files {
      CreateResult(job.root, files, job.invocation, pc.outcome, Step(job, pc, me, files, env).1[path]);
    }
  }

  lemma ResultOfTheAttempt(job: Job, pc: Pc, me: Call, files: Files)
    requires (pc.Recommit? || pc.CommitOutcome?) && (pc.sub.Open? || pc.sub.Write?)
    requires PcOk(job, files, me, pc) && KeyOk(job.root, files, job.invocation.key)
    ensures pc.sub.record == Sealed(job.invocation, Some(pc.outcome))
  {
    CommitSeals(job.invocation, pc.outcome);
  }

  ghost predicate OneWrite(files: Files, files': Files, key: string) {
    files' == files || exists path: Path :: OfKey(path, key) && path in files' && files' == files[path := files'[path]]
  }

  /** A step changes at most one file, of its own effect. */
  lemma StoreWritesOwnKey(job: Job, pc: Pc, me: Call, files: Files, env: Env)
    requires InStore(pc) && PcOk(job, files, me, pc)
    requires AttemptOk(job.root, files, job.invocation.key)
    ensures OneWrite(files, Step(job, pc, me, files, env).1, job.invocation.key)
  {
    if pc.sub.Open? || pc.sub.Write? {
      var path := Target(SubRequest(job, pc), pc.sub.record);
      assert pc.sub.record.invocation.key == job.invocation.key;
      assert OfKey(path, job.invocation.key);
    }
  }

  lemma FileWritesOwnKey(job: Job, pc: Pc, me: Call, files: Files, env: Env)
    requires Writes(pc)
    ensures OneWrite(files, Step(job, pc, me, files, env).1, job.invocation.key)
  {
    var key := job.invocation.key;
    assert OfKey(RunPath(key), key) && OfKey(TerminalPath(key), key) && OfKey(CompletionPath(key), key);
  }

  lemma OneWriteKeeps(root: string, files: Files, files': Files, key: string)
    requires AllKeysOk(root, files) && OneWrite(files, files', key) && KeyOk(root, files', key)
    ensures AllKeysOk(root, files')
  {
    if files' != files {
      var path: Path :| OfKey(path, key) && path in files' && files' == files[path := files'[path]];
      forall other | other != key ensures KeyOk(root, files', other) {
        OtherKeys(root, files, path, files'[path], other);
      }
    }
  }

  lemma StoreKeeps(job: Job, pc: Pc, me: Call, files: Files, env: Env)
    requires InStore(pc) && !pc.sub.Done?
    requires PcOk(job, files, me, pc) && AllKeysOk(job.root, files)
    ensures AllKeysOk(job.root, Step(job, pc, me, files, env).1)
  {
    assert KeyOk(job.root, files, job.invocation.key);
    StoreWritesOwnKey(job, pc, me, files, env);
    if pc.sub.Open? || pc.sub.Write? {
      StoreStepKeepsKey(job, pc, me, files, env);
    }
    OneWriteKeeps(job.root, files, Step(job, pc, me, files, env).1, job.invocation.key);
  }

  lemma WritesKeep(job: Job, pc: Pc, me: Call, files: Files, env: Env)
    requires Writes(pc)
    requires PcOk(job, files, me, pc) && AllKeysOk(job.root, files)
    ensures AllKeysOk(job.root, Step(job, pc, me, files, env).1)
  {
    assert KeyOk(job.root, files, job.invocation.key);
    FileWritesOwnKey(job, pc, me, files, env);
    WriteStepKeepsKey(job, pc, me, files, env);
    OneWriteKeeps(job.root, files, Step(job, pc, me, files, env).1, job.invocation.key);
  }

  /** A step keeps every effect's files consistent and the call's own knowledge true. */
  lemma StepKeeps(job: Job, pc: Pc, me: Call, files: Files, env: Env)
    requires PcOk(job, files, me, pc) && AllKeysOk(job.root, files)
    ensures var (pc', files') := Step(job, pc, me, files, env);
            Touches(me, files, files') && PcOk(job, files', me, pc') && AllKeysOk(job.root, files')
  {
    assert KeyOk(job.root, files, job.invocation.key);
    if InStore(pc) {
      if pc.sub.Done? {
        AnswerKeeps(job, pc, me, files, env);
      } else {
        StoreStepKeeps(job, pc, me, files, env);
        StoreKeeps(job, pc, me, files, env);
      }
    } else if Writes(pc) {
      WriteStepTouches(job, pc, me, files, env);
      WriteStepKeeps(job, pc, me, files, env);
      WritesKeep(job, pc, me, files, env);
    } else {
      ReadStepKeeps(job, pc, me, files, env);
    }
  }

  // ----- every run of concurrent, crashing and repeated calls -----

  datatype Host = Host(files: Files, calls: map<Call, (Job, Pc)>, launched: seq<Call>)

  ghost predicate Advances(s: Host, s': Host, c: Call, env: Env)
    requires c in s.calls
  {
    var (job, pc) := s.calls[c];
    var (pc', files') := Step(job, pc, c, s.files, env);
    s' == Host(files', s.calls[c := (job, pc')], if pc.Launch? then s.launched + [c] else s.launched)
  }

  /** A new invocation of `execute` in the root, or a step of one. */
  ghost predicate Next(root: string, s: Host, s': Host) {
    || (exists c: Call, job: Job ::
        c !in s.calls && job.root == root && s' == s.(calls := s.calls[c := (job, ReadRun)]))
    || (exists c: Call, env: Env :: c in s.calls && Advances(s, s', c, env))
  }

  ghost predicate Run(root: string, run: seq<Host>) {
    && run != [] && run[0] == Host(map[], map[], [])
    && forall i :: 0 <= i < |run| - 1 ==> Next(root, run[i], run[i + 1])
  }

  /** Points after the launch; none of them leads back. */
  predicate AfterLaunch(pc: Pc) {
    pc.Plan? || pc.OpenTerminal? || pc.WriteTerminal? || pc.CommitOutcome? || pc.Finished?
    || (pc.OpenCompletion? && !pc.recovered) || (pc.WriteCompletion? && !pc.recovered)
  }

  ghost predicate LaunchOk(s: Host, c: Call) {
    && c in s.calls && AfterLaunch(s.calls[c].1)
    && var path := AttemptPath(s.calls[c].0.invocation.key);
    path in s.files && s.files[path].creator == c
  }

  ghost predicate CallsOk(root: string, s: Host) {
    forall c :: c in s.calls ==> s.calls[c].0.root == root && PcOk(s.calls[c].0, s.files, c, s.calls[c].1)
  }

  ghost predicate LaunchesOk(s: Host) {
    && (forall i :: 0 <= i < |s.launched| ==> LaunchOk(s, s.launched[i]))
    && forall i, j :: 0 <= i < j < |s.launched| ==> s.launched[i] != s.launched[j]
  }

  ghost predicate Consistent(root: string, s: Host) {
    AllKeysOk(root, s.files) && CallsOk(root, s) && LaunchesOk(s)
  }

  /** No step leads back before the launch. */
  lemma StaysLaunched(job: Job, pc: Pc, me: Call, files: Files, env: Env)
    requires AfterLaunch(pc)
    ensures AfterLaunch(Step(job, pc, me, files, env).0)
  {
  }

  lemma LaunchStays(s: Host, s': Host, c: Call, env: Env, d: Call)
    requires c in s.calls && Advances(s, s', c, env) && LaunchOk(s, d) && Grows(s.files, s'.files)
    ensures LaunchOk(s', d)
  {
    if d == c {
      StaysLaunched(s.calls[c].0, s.calls[c].1, c, s.files, env);
    }
  }

  lemma AdvanceKeepsLaunches(s: Host, s': Host, c: Call, env: Env)
    requires c in s.calls && Advances(s, s', c, env) && LaunchesOk(s)
    requires PcOk(s.calls[c].0, s.files, c, s.calls[c].1) && Grows(s.files, s'.files)
    ensures LaunchesOk(s')
  {
    forall i | 0 <= i < |s.launched| ensures LaunchOk(s', s.launched[i]) {
      LaunchStays(s, s', c, env, s.launched[i]);
    }
    if s.calls[c].1.Launch? {
      assert LaunchOk(s', c);
      assert forall i :: 0 <= i < |s.launched| ==> LaunchOk(s, s.launched[i]);
    }
  }

  lemma AdvanceKeeps(root: string, s: Host, s': Host, c: Call, env: Env)
    requires Consistent(root, s) && c in s.calls && Advances(s, s', c, env)
    ensures Consistent(root, s')
  {
    var (job, pc) := s.calls[c];
    StepKeeps(job, pc, c, s.files, env);
    forall d | d in s'.calls && d != c
      ensures s'.calls[d].0.root == root && PcOk(s'.calls[d].0, s'.files, d, s'.calls[d].1)
    {
      Stable(s.calls[d].0, s.files, s'.files, d, c, s.calls[d].1);
    }
    AdvanceKeepsLaunches(s, s', c, env);
  }

  lemma ArrivalKeeps(root: string, s: Host, s': Host, c: Call, job: Job)
    requires Consistent(root, s) && c !in s.calls && job.root == root
    requires s' == s.(calls := s.calls[c := (job, ReadRun)])
    ensures Consistent(root, s')
  {
    forall i | 0 <= i < |s'.launched| ensures LaunchOk(s', s'.launched[i]) {
      assert LaunchOk(s, s.launched[i]);
    }
  }

  lemma NextKeeps(root: string, s: Host, s': Host)
    requires Consistent(root, s) && Next(root, s, s')
    ensures Consistent(root, s')
  {
    if c: Call, env: Env :| c in s.calls && Advances(s, s', c, env) {
      AdvanceKeeps(root, s, s', c, env);
    } else {
      var c: Call, job: Job :| c !in s.calls && job.root == root && s' == s.(calls := s.calls[c := (job, ReadRun)]);
      ArrivalKeeps(root, s, s', c, job);
    }
  }

  lemma {:induction false} AlwaysConsistent(root: string, run: seq<Host>, i: nat)
    requires Run(root, run) && i < |run|
    ensures Consistent(root, run[i])
  {
    if i > 0 {
      AlwaysConsistent(root, run, i - 1);
      NextKeeps(root, run[i - 1], run[i]);
    }
  }

  /** Over every run the worker of one logical effect is launched at most once, whichever
      calls, retries and crashes the run contains. */
  lemma AtMostOneLaunch(root: string, run: seq<Host>, n: nat, i: nat, j: nat)
    requires Run(root, run) && n < |run|
    requires i < |run[n].launched| && j < |run[n].launched|
    requires run[n].launched[i] in run[n].calls && run[n].launched[j] in run[n].calls
    requires run[n].calls[run[n].launched[i]].0.invocation.key == run[n].calls[run[n].launched[j]].0.invocation.key
    ensures i == j
  {
    AlwaysConsistent(root, run, n);
    assert LaunchOk(run[n], run[n].launched[i]) && LaunchOk(run[n], run[n].launched[j]);
  }

  /** A call that succeeds answers with an outcome that is complete on file, in the terminal and in
      the result of its own attempt, and with the custody that names both. */
  lemma SuccessIsOnFile(root: string, run: seq<Host>, n: nat, c: Call)
    requires Run(root, run) && n < |run| && c in run[n].calls
    requires run[n].calls[c].1.Finished? && run[n].calls[c].1.result.Some?
    ensures var (outcome, custody) := run[n].calls[c].1.result.value;
      Answered(run[n].calls[c].0, run[n].files, outcome, custody) && run[n].calls[c].0.root == root
  {
    AlwaysConsistent(root, run, n);
  }

  // ----- nothing is launched that was not revalidated -----

  lemma OnlyRevalidationLaunches(job: Job, pc: Pc, me: Call, files: Files, env: Env)
    requires Step(job, pc, me, files, env).0.Launch?
    ensures pc.Revalidate? && env.revalidated
  {
  }

  /** A call that is about to launch made, before, the step whose revalidation succeeded. */
  lemma {:induction false} LaunchIsRevalidated(root: string, run: seq<Host>, i: nat, c: Call) returns (k: nat, env: Env)
    requires Run(root, run) && i < |run| && c in run[i].calls && run[i].calls[c].1.Launch?
    ensures k < i && c in run[k].calls && run[k].calls[c].1.Revalidate? && env.revalidated
    ensures Advances(run[k], run[k + 1], c, env) && run[k].calls[c].0 == run[i].calls[c].0
  {
    assert i > 0 && Next(root, run[i - 1], run[i]);
    if c in run[i - 1].calls && run[i - 1].calls[c] == run[i].calls[c] {
      k, env := LaunchIsRevalidated(root, run, i - 1, c);
    } else {
      k := i - 1;
      env := StepOf(root, run[i - 1], run[i], c);
      var (job, pc) := run[k].calls[c];
      OnlyRevalidationLaunches(job, pc, c, run[k].files, env);
    }
  }

  /** A call that changed, and did not just arrive, is the one that stepped. */
  lemma StepOf(root: string, s: Host, s': Host, c: Call) returns (env: Env)
    requires Next(root, s, s') && c in s'.calls && !s'.calls[c].1.ReadRun?
      && (c in s.calls ==> s.calls[c] != s'.calls[c])
    ensures c in s.calls && Advances(s, s', c, env)
  {
    if d: Call, job: Job :| d !in s.calls && job.root == root && s' == s.(calls := s.calls[d := (job, ReadRun)]) {
      assert false;
    } else {
      var d: Call, e: Env :| d in s.calls && Advances(s, s', d, e);
      assert d == c;
      env := e;
    }
  }

  // ----- one call left alone -----

  /** The call's steps with nobody else acting. */
  function Stepping(job: Job, me: Call, env: Env): (Pc, Files) -> (Pc, Files) {
    (pc: Pc, files: Files) => Step(job, pc, me, files, env)
  }

  predicate Ended(pc: Pc) {
    pc.Finished?
  }

  ghost predicate Leads(job: Job, me: Call, env: Env, from: Pc, start: Files, pc: Pc, files: Files) {
    Machine.Leads(Stepping(job, me, env), Ended, (from, start), (pc, files))
  }

  lemma Here(job: Job, me: Call, env: Env, files: Files)
    ensures Leads(job, me, env, ReadRun, files, ReadRun, files)
  {
    Machine.Here(Stepping(job, me, env), Ended, (ReadRun, files));
  }

  lemma Then(job: Job, me: Call, env: Env, from: Pc, start: Files, pc: Pc, files: Files, pc': Pc, files': Files)
    requires Leads(job, me, env, from, start, pc, files) && !pc.Finished?
    requires Step(job, pc, me, files, env) == (pc', files')
    ensures Leads(job, me, env, from, start, pc', files')
  {
    Machine.Then(Stepping(job, me, env), Ended, (from, start), (pc, files), (pc', files'));
  }

  /** The decision still offers the operation as it was when the attempt was admitted. */
  predicate StillCurrent(job: Job) {
    && job.invocation.kind == INVOCATION_KIND
    && job.invocation.operationRevision != ""
    && job.invocation.operation in job.decision.revisions
    && job.decision.revisions[job.invocation.operation] == job.invocation.operationRevision
  }

  /** The terminal file of the job is complete and its files agree. */
  ghost predicate Recoverable(job: Job, files: Files, outcome: Outcome) {
    && KeyOk(job.root, files, job.invocation.key)
    && Plans(job, files, Planned(job.root, job.invocation, outcome), outcome)
    && Terminated(job.root, files, job.invocation, outcome)
  }

  /** From the admission of completed custody the call replays the outcome. */
  lemma AdmissionReplays(job: Job, me: Call, env: Env, from: Pc, start: Files, files: Files, outcome: Outcome)
    requires Recoverable(job, files, outcome) && Resulted(files, job.invocation, outcome) && StillCurrent(job)
    requires Leads(job, me, env, from, start, Admitting(Some(Planned(job.root, job.invocation, outcome)), Start), files)
    ensures Leads(job, me, env, from, start, Finished(Some((outcome, Planned(job.root, job.invocation, outcome)))),
                  files)
  {
    var planned := Planned(job.root, job.invocation, outcome);
    var sealed := Sealed(job.invocation, Some(outcome));
    CommitSeals(job.invocation, outcome);
    var p1 := Admitting(Some(planned), ReadResult(Sealed(job.invocation, None)));
    Then(job, me, env, from, start, Admitting(Some(planned), Start), files, p1, files);
    var p2 := Admitting(Some(planned), Done(Admitted(Replay, sealed, planned)));
    Then(job, me, env, from, start, p1, files, p2, files);
    Then(job, me, env, from, start, p2, files, Finished(Some((outcome, planned))), files);
  }

  lemma InspectionReturns(job: Job, me: Call, env: Env, from: Pc, start: Files, files: Files, outcome: Outcome)
    requires Recoverable(job, files, outcome) && Resulted(files, job.invocation, outcome)
    requires var planned := Planned(job.root, job.invocation, outcome);
             Leads(job, me, env, from, start,
                   InspectPlanned(RunCustody(job.root, job.invocation), planned, outcome, Start), files)
    ensures Leads(job, me, env, from, start,
                  OpenCompletion(Planned(job.root, job.invocation, outcome), outcome, true), files)
  {
    var planned, run := Planned(job.root, job.invocation, outcome), RunCustody(job.root, job.invocation);
    var sealed := Sealed(job.invocation, Some(outcome));
    CommitSeals(job.invocation, outcome);
    var p0 := InspectPlanned(run, planned, outcome, Start);
    var p1 := InspectPlanned(run, planned, outcome, ReadResult(Sealed(job.invocation, None)));
    Then(job, me, env, from, start, p0, files, p1, files);
    var p2 := InspectPlanned(run, planned, outcome, Done(Returned(sealed, planned)));
    Then(job, me, env, from, start, p1, files, p2, files);
    Then(job, me, env, from, start, p2, files, OpenCompletion(planned, outcome, true), files);
  }

  /** With the result in place the call inspects it, writes the completion and replays. */
  lemma InspectionReplays(job: Job, me: Call, env: Env, from: Pc, start: Files, files: Files, outcome: Outcome)
    returns (files': Files)
    requires Recoverable(job, files, outcome) && Resulted(files, job.invocation, outcome) && StillCurrent(job)
    requires CompletionPath(job.invocation.key) !in files
    requires var planned := Planned(job.root, job.invocation, outcome);
             Leads(job, me, env, from, start,
                   InspectPlanned(RunCustody(job.root, job.invocation), planned, outcome, Start), files)
    ensures Leads(job, me, env, from, start, Finished(Some((outcome, Planned(job.root, job.invocation, outcome)))),
                  files')
  {
    var planned := Planned(job.root, job.invocation, outcome);
    CommitSeals(job.invocation, outcome);
    var p3 := OpenCompletion(planned, outcome, true);
    InspectionReturns(job, me, env, from, start, files, outcome);
    var key := job.invocation.key;
    var begun := files[CompletionPath(key) := File(me, None)];
    var p4 := WriteCompletion(planned, outcome, true);
    Then(job, me, env, from, start, p3, files, p4, begun);
    files' := begun[CompletionPath(key) := File(me, Some(RunDoc(job.invocation, planned)))];
    Then(job, me, env, from, start, p4, begun, Admitting(Some(planned), Start), files');
    assert Recoverable(job, files', outcome);
    AdmissionReplays(job, me, env, from, start, files', outcome);
  }

  /** Without the result, recovery commits it from the terminal file first. */
  lemma RecommitReplays(job: Job, me: Call, env: Env, from: Pc, start: Files, files: Files, outcome: Outcome)
    returns (files': Files)
    requires Recoverable(job, files, outcome) && StillCurrent(job)
    requires ResultPath(job.invocation.key) !in files && CompletionPath(job.invocation.key) !in files
    requires var planned := Planned(job.root, job.invocation, outcome);
             Leads(job, me, env, from, start,
                   Recommit(RunCustody(job.root, job.invocation), planned, outcome, Start), files)
    ensures Leads(job, me, env, from, start, Finished(Some((outcome, Planned(job.root, job.invocation, outcome)))),
                  files')
  {
    var planned, run := Planned(job.root, job.invocation, outcome), RunCustody(job.root, job.invocation);
    var sealed := Sealed(job.invocation, Some(outcome));
    CommitSeals(job.invocation, outcome);
    var p0 := Recommit(run, planned, outcome, Start);
    var p1 := Recommit(run, planned, outcome, Effects.Open(sealed));
    Then(job, me, env, from, start, p0, files, p1, files);
    var key := job.invocation.key;
    var begun := files[ResultPath(key) := File(me, None)];
    var p2 := Recommit(run, planned, outcome, Effects.Write(sealed));
    Then(job, me, env, from, start, p1, files, p2, begun);
    var written := begun[ResultPath(key) := File(me, Some(EffectDoc(sealed)))];
    var p3 := Recommit(run, planned, outcome, Done(Returned(sealed, planned)));
    Then(job, me, env, from, start, p2, begun, p3, written);
    Then(job, me, env, from, start, p3, written, InspectPlanned(run, planned, outcome, Start), written);
    assert Recoverable(job, written, outcome) && Resulted(written, job.invocation, outcome);
    files' := InspectionReplays(job, me, env, from, start, written, outcome);
  }

  /** Once the terminal file of an effect is fully written, a later call of the same
      invocation that is left alone and revalidates replays exactly the terminal outcome,
      unless the result or the completion file is torn; then it refuses. */
  lemma TerminalReplays(job: Job, me: Call, files: Files, env: Env, outcome: Outcome) returns (files': Files)
    requires Recoverable(job, files, outcome) && StillCurrent(job) && env.revalidated
    ensures var torn := TornFile(files, CompletionPath(job.invocation.key))
      || TornFile(files, ResultPath(job.invocation.key));
            Leads(job, me, env, ReadRun, files,
                  if torn then Stop else Finished(Some((outcome, Planned(job.root, job.invocation, outcome)))), files')
  {
    var key := job.invocation.key;
    var planned, run := Planned(job.root, job.invocation, outcome), RunCustody(job.root, job.invocation);
    files' := files;
    Here(job, me, env, files);
    assert Runs(job, files, run);
    Then(job, me, env, ReadRun, files, ReadRun, files, ReadCompletion(run), files);
    if TornFile(files, CompletionPath(key)) {
      Then(job, me, env, ReadRun, files, ReadCompletion(run), files, Stop, files);
    } else if CompletionPath(key) in files {
      assert files[CompletionPath(key)].doc == Some(RunDoc(job.invocation, planned));
      Then(job, me, env, ReadRun, files, ReadCompletion(run), files, Admitting(Some(planned), Start), files);
      AdmissionReplays(job, me, env, ReadRun, files, files, outcome);
    } else {
      Then(job, me, env, ReadRun, files, ReadCompletion(run), files, ReadTerminal(run), files);
      files' := TerminalRecovers(job, me, files, env, outcome);
    }
  }

  lemma TerminalRecovers(job: Job, me: Call, files: Files, env: Env, outcome: Outcome) returns (files': Files)
    requires Recoverable(job, files, outcome) && StillCurrent(job) && env.revalidated
    requires CompletionPath(job.invocation.key) !in files
    requires Leads(job, me, env, ReadRun, files, ReadTerminal(RunCustody(job.root, job.invocation)), files)
    ensures Leads(job, me, env, ReadRun, files,
                  if TornFile(files, ResultPath(job.invocation.key)) then Stop
                  else Finished(Some((outcome, Planned(job.root, job.invocation, outcome)))), files')
  {
    var key := job.invocation.key;
    var planned, run := Planned(job.root, job.invocation, outcome), RunCustody(job.root, job.invocation);
    var sealed := Sealed(job.invocation, Some(outcome));
    CommitSeals(job.invocation, outcome);
    files' := files;
    var p0 := Recover(run, planned, outcome, Start);
    Then(job, me, env, ReadRun, files, ReadTerminal(run), files, p0, files);
    var p1 := Recover(run, planned, outcome, Stat(sealed));
    Then(job, me, env, ReadRun, files, p0, files, p1, files);
    if TornFile(files, ResultPath(key)) {
      var p2 := Recover(run, planned, outcome, Done(Failed));
      Then(job, me, env, ReadRun, files, p1, files, p2, files);
      Then(job, me, env, ReadRun, files, p2, files, Stop, files);
    } else {
      assert ResultPath(key) in files ==> Resulted(files, job.invocation, outcome);
      var p2 := Recover(run, planned, outcome, Done(Returned(sealed, planned)));
      Then(job, me, env, ReadRun, files, p1, files, p2, files);
      var p3 := ReadCommitted(run, planned, outcome);
      Then(job, me, env, ReadRun, files, p2, files, p3, files);
      if ResultPath(key) in files {
        Then(job, me, env, ReadRun, files, p3, files, InspectPlanned(run, planned, outcome, Start), files);
        files' := InspectionReplays(job, me, env, ReadRun, files, files, outcome);
      } else {
        Then(job, me, env, ReadRun, files, p3, files, Recommit(run, planned, outcome, Start), files);
        files' := RecommitReplays(job, me, env, ReadRun, files, files, outcome);
      }
    }
  }

  /** The same over runs: whatever happened before, a state whose terminal file is complete
      is recoverable for the invocation that was admitted. */
  lemma TerminalStateIsRecoverable(root: string, run: seq<Host>, n: nat, job: Job)
    requires Run(root, run) && n < |run| && job.root == root
    requires Has(run[n].files, AttemptPath(job.invocation.key), EffectDoc(Sealed(job.invocation, None)))
    requires Full(run[n].files, TerminalPath(job.invocation.key))
    ensures var doc := run[n].files[TerminalPath(job.invocation.key)].doc.value;
            doc.TerminalDoc? && Recoverable(job, run[n].files, doc.outcome)
  {
    AlwaysConsistent(root, run, n);
    assert KeyOk(root, run[n].files, job.invocation.key);
  }
}
