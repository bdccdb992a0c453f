/** What an uninterrupted call of the effect store answers (src/core/src/attempt.rs,
    src/core/src/attempt_store.rs), said of the evidence and the fields of its request alone. */
module EffectLaws {
  import opened Wrappers
  import opened Effects
  import opened EffectStore

  /** The evidence names this root and a file that holds exactly its record. */
  ghost predicate OnFile(root: string, files: Files, evidence: Evidence, path: Path) {
    && evidence.target == root && evidence.path == path
    && path in files && files[path].doc == Some(EffectDoc(evidence.revision))
    && evidence.owner == evidence.revision.invocation.owner
  }

  ghost predicate Allowed(invocation: Invocation, outcome: Outcome) {
    && (outcome.status == "applied" || outcome.status == "unchanged" || outcome.status == "rejected")
    && forall e :: e in outcome.effects ==> e in invocation.effects
  }

  /** The record is the one its invocation and outcome make, and the outcome one it may have. */
  ghost predicate Sound(record: Record) {
    && record.invocation.key != ""
    && record == Sealed(record.invocation, record.outcome)
    && (record.outcome.Some? ==> Allowed(record.invocation, record.outcome.value))
  }

  lemma SealedFields(invocation: Invocation, outcome: Option<Outcome>)
    ensures var record := Sealed(invocation, outcome);
      && record.kind == "agentic-workspace/effect-attempt/v1" && record.invocation == invocation
      && record.outcome == outcome && record.attempt.effect == invocation.key && record.attempt.attempt == 1
      && record.revision.kind == record.kind && record.revision.attempt == record.attempt
      && record.revision.invocation == invocation && record.revision.outcome == outcome
  {
  }

  lemma SoundIsIntact(record: Record)
    ensures Intact(record) <==> Sound(record)
  {
    if record.outcome.Some? {
      AllowedIsValid(record.invocation, record.outcome.value);
    }
  }

  lemma AllowedIsValid(invocation: Invocation, outcome: Outcome)
    ensures ValidOutcome(invocation, outcome) <==> Allowed(invocation, outcome)
  {
  }

  // ----- admission -----

  /** A first admission is told to execute exactly when the invocation is offered now, belongs here
      and its effect was never attempted nor committed; then the attempt is on file. */
  lemma FirstAdmissionExactly(root: string, decision: Decision, invocation: Invocation, me: Call, files: Files)
    ensures var (reply, files') := Finish(root, Admit(decision, invocation, None), Start, me, files);
      var path, record := AttemptPath(invocation.key), Sealed(invocation, None);
      var executes :=
        && invocation.key != "" && invocation.target == root
        && invocation.kind == "agentic-workspace/operation-invocation/v1" && invocation in decision.ready
        && path !in files && ResultPath(invocation.key) !in files;
      if executes then
        && reply == Admitted(Execute, record, Custody(Evidence(root, path, invocation.owner, record), None))
        && files' == files[path := File(me, Some(EffectDoc(record)))]
      else reply == Failed && files' == files
  {
    var request, record := Admit(decision, invocation, None), Sealed(invocation, None);
    if invocation.key != "" && invocation.target == root && AdmitInvocation(decision, invocation, None)
       && ResultPath(invocation.key) !in files {
      FinishOpen(root, request, record, me, files);
      assert Finish(root, request, Start, me, files) == Finish(root, request, Open(record), me, files);
    }
  }

  /** What a retained admission rests on: the attempt in custody or, once committed, the result of
      that attempt. */
  ghost predicate Rests(root: string, files: Files, key: string, held: Custody, record: Record) {
    && OnFile(root, files, held.attempt, AttemptPath(key))
    && match held.committed
       case None => record == held.attempt.revision
       case Some(result) =>
         && OnFile(root, files, result, ResultPath(key)) && record == result.revision
         && record.invocation == held.attempt.revision.invocation
         && record.attempt == held.attempt.revision.attempt
  }

  /** A retained admission replays a committed outcome, or reports an uncertain attempt, exactly
      when its custody is on file, sound and still meant; it never executes and changes no file. */
  lemma RetainedAdmissionExactly(root: string, decision: Decision, invocation: Invocation, held: Custody, me: Call,
                                 files: Files)
    ensures var request := Admit(decision, invocation, Some(held));
      var (reply, files') := Finish(root, request, Start, me, files);
      var record := if held.committed.Some? then held.committed.value.revision else held.attempt.revision;
      var retains :=
        && invocation.key != "" && invocation.target == root
        && Rests(root, files, invocation.key, held, record)
        && Sound(record) && StillMeant(request, record) && record.invocation.key == invocation.key;
      && files' == files
      && reply == (if retains then Admitted(if record.outcome.Some? then Replay else Uncertain, record, held)
                   else Failed)
  {
    SoundIsIntact(held.attempt.revision);
    if held.committed.Some? {
      SoundIsIntact(held.committed.value.revision);
    }
  }

  // ----- commit -----

  /** The attempt in custody is on file, sound, this root's own, and may take this outcome. */
  ghost predicate Takes(root: string, files: Files, held: Custody, outcome: Outcome) {
    var record := held.attempt.revision;
    && OnFile(root, files, held.attempt, AttemptPath(record.invocation.key))
    && record.invocation.target == root && Sound(record)
    && Allowed(record.invocation, outcome) && (record.outcome == None || record.outcome == Some(outcome))
  }

  lemma TakesCommits(root: string, files: Files, held: Custody, outcome: Outcome)
    ensures var record := CommitRecord(held.attempt.revision, outcome);
      && (Holds(root, files, held) && record.Some? <==> Takes(root, files, held, outcome))
      && (record.Some? ==> record.value == Sealed(held.attempt.revision.invocation, Some(outcome)))
  {
    SoundIsIntact(held.attempt.revision);
    AllowedIsValid(held.attempt.revision.invocation, outcome);
  }

  /** A commit writes the result, once, exactly when the attempt may take the outcome and nothing
      was committed before; with a committed custody it only confirms that very result. */
  lemma CommitExactly(root: string, held: Custody, outcome: Outcome, me: Call, files: Files)
    ensures var (reply, files') := Finish(root, Commit(held, outcome), Start, me, files);
      var invocation := held.attempt.revision.invocation;
      var path, record := ResultPath(invocation.key), Sealed(invocation, Some(outcome));
      var takes := Takes(root, files, held, outcome);
      match held.committed
      case None =>
        if takes && path !in files then
          && reply == Returned(record, held.(committed := Some(Evidence(root, path, invocation.owner, record))))
          && files' == files[path := File(me, Some(EffectDoc(record)))]
        else reply == Failed && files' == files
      case Some(result) =>
        && files' == files
        && reply == (if takes && OnFile(root, files, result, path) && result.revision == record
                     then Returned(record, held) else Failed)
  {
    TakesCommits(root, files, held, outcome);
    var record := CommitRecord(held.attempt.revision, outcome);
    if held.committed.None? && Holds(root, files, held) && record.Some? {
      FinishOpen(root, Commit(held, outcome), record.value, me, files);
      assert Finish(root, Commit(held, outcome), Start, me, files)
          == Finish(root, Commit(held, outcome), Open(record.value), me, files);
    }
  }

  /** Planning answers what committing would, exactly when the attempt may take the outcome and what
      is on file, or in custody, is that result. */
  lemma PrepareExactly(root: string, held: Custody, outcome: Outcome, me: Call, files: Files)
    ensures var (reply, files') := Finish(root, Prepare(held, outcome), Start, me, files);
      var invocation := held.attempt.revision.invocation;
      var path, record := ResultPath(invocation.key), Sealed(invocation, Some(outcome));
      var result := Evidence(root, path, invocation.owner, record);
      && files' == files
      && reply == (if Takes(root, files, held, outcome) && (path in files ==> OnFile(root, files, result, path))
                      && (held.committed == None || held.committed == Some(result))
                   then Returned(record, held.(committed := Some(result))) else Failed)
  {
    TakesCommits(root, files, held, outcome);
  }

  /** An inspection returns the committed result exactly when both pieces of custody are on file and
      the result is the commit of the attempt. */
  lemma InspectExactly(root: string, held: Custody, me: Call, files: Files)
    ensures var (reply, files') := Finish(root, Inspect(held), Start, me, files);
      var invocation := held.attempt.revision.invocation;
      && files' == files
      && match held.committed
         case None => reply == Failed
         case Some(result) =>
           var record := result.revision;
           reply == (if && OnFile(root, files, result, ResultPath(invocation.key)) && record.outcome.Some?
                        && Takes(root, files, held, record.outcome.value)
                        && record == Sealed(invocation, record.outcome)
                     then Returned(record, held) else Failed)
  {
    if held.committed.Some? && held.committed.value.revision.outcome.Some? {
      TakesCommits(root, files, held, held.committed.value.revision.outcome.value);
    }
  }
}
