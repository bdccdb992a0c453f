/** The uninterrupted calls of the effect store as code over its mutable files, proved to
    end in the reply and files of the step-by-step transition system. */
module EffectStore {
  import opened Wrappers
  import opened Effects

  function Rank(pc: Pc): nat {
    match pc
    case Start => 5
    case Stat(_) => 4
    case Open(_) => 3
    case Write(_) => 2
    case ReadResult(_) => 1
    case Done(_) => 0
  }

  /** All remaining steps of a call with nobody in between. */
  function Finish(root: string, request: Request, pc: Pc, me: Call, files: Files): (Reply, Files)
    decreases Rank(pc)
  {
    if pc.Done? then (pc.reply, files)
    else
      var (pc', files') := Step(root, request, pc, me, files);
      Finish(root, request, pc', me, files')
  }

  /** The last steps of a call that reached create-new. */
  lemma FinishOpen(root: string, request: Request, record: Record, me: Call, files: Files)
    ensures var path := Target(request, record);
            Finish(root, request, Open(record), me, files) ==
            if path in files then (Failed, files)
            else (Created(root, request, record), files[path := File(me, Some(EffectDoc(record)))])
  {
    var path := Target(request, record);
    if path in files {
      assert Finish(root, request, Done(Failed), me, files) == (Failed, files);
    } else {
      var begun := files[path := File(me, None)];
      var whole := File(me, Some(EffectDoc(record)));
      assert begun[path := whole] == files[path := whole];
      assert Finish(root, request, Write(record), me, begun) ==
             (Created(root, request, record), begun[path := File(me, Some(EffectDoc(record)))]);
    }
  }

  class Store {
    const root: string
    var files: Files

    constructor (root: string)
      ensures this.root == root && files == map[]
    {
      this.root := root;
      files := map[];
    }

    /** Create-new, then the whole content; `None` when the file is already there. */
    method Create(path: Path, record: Record, me: Call) returns (evidence: Option<Evidence>)
      modifies this
      ensures path in old(files) ==> evidence.None? && files == old(files)
      ensures path !in old(files) ==>
                evidence == Some(EvidenceFor(root, path, record))
                    && files == old(files)[path := File(me, Some(EffectDoc(record)))]
    {
      if path in files {
        return None;
      }
      files := files[path := File(me, None)];
      files := files[path := File(me, Some(EffectDoc(record)))];
      evidence := Some(EvidenceFor(root, path, record));
    }

    method Admit(decision: Decision, invocation: Invocation, custody: Option<Custody>, me: Call) returns (reply: Reply)
      modifies this
      ensures (reply, files) == Finish(root, Request.Admit(decision, invocation, custody), Start, me, old(files))
    {
      if invocation.key == "" || invocation.target != root {
        return Failed;
      }
      var retained: Option<Record> := None;
      if custody.Some? {
        var held := custody.value;
        if held.attempt.path != AttemptPath(invocation.key) || !Reads(root, files, held.attempt) {
          return Failed;
        }
        retained := Some(held.attempt.revision);
        if held.committed.Some? {
          var committed := held.committed.value;
          if committed.path != ResultPath(invocation.key) || !Reads(root, files, committed) {
            return Failed;
          }
          var record := committed.revision;
          if record.invocation != retained.value.invocation || record.attempt != retained.value.attempt {
            return Failed;
          }
          retained := Some(record);
        }
      }
      if retained.Some? && !Intact(retained.value) {
        return Failed;
      }
      if !AdmitInvocation(decision, invocation, if retained.Some? then Some(retained.value.invocation) else None) {
        return Failed;
      }
      if retained.Some? {
        return Admitted(if retained.value.outcome.Some? then Replay else Uncertain, retained.value, custody.value);
      }
      if ResultPath(invocation.key) in files {
        return Failed;
      }
      var record := Sealed(invocation, None);
      ghost var request := Request.Admit(decision, invocation, custody);
      FinishOpen(root, request, record, me, files);
      assert Finish(root, request, Stat(record), me, files) == Finish(root, request, Open(record), me, files);
      var evidence := Create(AttemptPath(invocation.key), record, me);
      if evidence.None? {
        return Failed;
      }
      reply := Admitted(Execute, record, Custody(evidence.value, None));
    }

    method Commit(held: Custody, outcome: Outcome, me: Call) returns (reply: Reply)
      modifies this
      ensures (reply, files) == Finish(root, Request.Commit(held, outcome), Start, me, old(files))
    {
      if !Reads(root, files, held.attempt) {
        return Failed;
      }
      var admitted := held.attempt.revision;
      if admitted.invocation.target != root || held.attempt.path != AttemptPath(admitted.invocation.key) {
        return Failed;
      }
      var record := CommitRecord(admitted, outcome);
      if record.None? {
        return Failed;
      }
      var path := ResultPath(admitted.invocation.key);
      var committed := held.committed;
      if committed.Some? {
        if committed.value.path != path || !Reads(root, files, committed.value)
            || committed.value.revision != record.value {
          return Failed;
        }
      } else {
        FinishOpen(root, Request.Commit(held, outcome), record.value, me, files);
        committed := Create(path, record.value, me);
        if committed.None? {
          return Failed;
        }
      }
      reply := Returned(record.value, Custody(held.attempt, committed));
    }

    method PrepareCommit(held: Custody, outcome: Outcome) returns (reply: Reply)
      ensures forall me :: (reply, files) == Finish(root, Prepare(held, outcome), Start, me, files)
    {
      if !Reads(root, files, held.attempt) {
        return Failed;
      }
      var admitted := held.attempt.revision;
      if admitted.invocation.target != root || held.attempt.path != AttemptPath(admitted.invocation.key) {
        return Failed;
      }
      var record := CommitRecord(admitted, outcome);
      if record.None? {
        return Failed;
      }
      var expected := Evidence(root, ResultPath(admitted.invocation.key), held.attempt.owner, record.value);
      if expected.path in files && !Reads(root, files, expected) {
        return Failed;
      }
      if held.committed.Some? && held.committed.value != expected {
        return Failed;
      }
      reply := Returned(record.value, Custody(held.attempt, Some(expected)));
    }

    method InspectCommitted(held: Custody) returns (reply: Reply)
      ensures forall me :: (reply, files) == Finish(root, Inspect(held), Start, me, files)
    {
      if !Reads(root, files, held.attempt) {
        return Failed;
      }
      var admitted := held.attempt.revision;
      if admitted.invocation.target != root || held.committed.None? {
        return Failed;
      }
      var committed := held.committed.value;
      if held.attempt.path != AttemptPath(admitted.invocation.key)
          || committed.path != ResultPath(admitted.invocation.key) {
        return Failed;
      }
      if !Reads(root, files, committed) {
        return Failed;
      }
      var record := committed.revision;
      if record.outcome.None? || CommitRecord(admitted, record.outcome.value) != Some(record) {
        return Failed;
      }
      reply := Returned(record, held);
    }
  }
}
