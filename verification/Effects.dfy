/** Effect admission and result files (src/core/src/attempt.rs, src/core/src/attempt_store.rs)
    as a transition system.  One step is one file operation of one call; calls interleave
    freely, and a crashed call is one that is never scheduled again.  A file is created
    empty by the call that opens it with create-new and gets its whole content in a later
    step, so a crash in between leaves it torn.  A digest stands for what it digests
    (digests are taken to be injective).  Nobody else edits or removes these files. */
module Effects {
  import opened Wrappers

  // ----- invocations, outcomes and attempt records -----

  datatype Invocation = Invocation(
    kind: string, key: string, owner: string, target: string,
    operation: string, operationRevision: string, effects: seq<string>,
    destination: string, value: string, arguments: string)

  datatype Outcome = Outcome(status: string, effects: seq<string>, value: string)

  datatype AttemptId = AttemptId(effect: string, attempt: nat)

  datatype Revision = Revision(kind: string, attempt: AttemptId, invocation: Invocation, outcome: Option<Outcome>)

  datatype Record = Record(
    kind: string, attempt: AttemptId, invocation: Invocation, outcome: Option<Outcome>, revision: Revision)

  datatype Decision = Decision(ready: set<Invocation>, revisions: map<string, string>)

  const INVOCATION_KIND := "agentic-workspace/operation-invocation/v1"
  const KIND := "agentic-workspace/effect-attempt/v1"

  predicate ValidOutcome(invocation: Invocation, outcome: Outcome) {
    && outcome.status in ["applied", "unchanged", "rejected"]
    && forall e :: e in outcome.effects ==> e in invocation.effects
  }

  function Sealed(invocation: Invocation, outcome: Option<Outcome>): Record {
    var attempt := AttemptId(invocation.key, 1);
    Record(KIND, attempt, invocation, outcome, Revision(KIND, attempt, invocation, outcome))
  }

  /** `read_record`: the identity, revision and outcome of a retained record are intact. */
  predicate Intact(record: Record) {
    && record.kind == KIND
    && record.invocation.key != ""
    && record.attempt == AttemptId(record.invocation.key, 1)
    && record.revision == Revision(record.kind, record.attempt, record.invocation, record.outcome)
    && (record.outcome.Some? ==> ValidOutcome(record.invocation, record.outcome.value))
  }

  /** `attempt::commit`: an intact record takes a valid outcome and never changes it. */
  function CommitRecord(record: Record, outcome: Outcome): Option<Record> {
    if Intact(record) && ValidOutcome(record.invocation, outcome) && record.outcome in [None, Some(outcome)]
    then Some(record.(outcome := Some(outcome), revision := record.revision.(outcome := Some(outcome))))
    else None
  }

  lemma CommitSeals(invocation: Invocation, outcome: Outcome)
    requires invocation.key != "" && ValidOutcome(invocation, outcome)
    ensures CommitRecord(Sealed(invocation, None), outcome) == Some(Sealed(invocation, Some(outcome)))
    ensures Intact(Sealed(invocation, Some(outcome)))
  {
  }

  lemma CommitSealsIfValid(invocation: Invocation, outcome: Outcome)
    ensures var record := CommitRecord(Sealed(invocation, None), outcome);
            record.Some? ==> ValidOutcome(invocation, outcome) && record.value == Sealed(invocation, Some(outcome))
  {
  }

  /** `admit_invocation_value`: the invocation is offered now, or is the exact retained one
      and its operation still means the same. */
  predicate AdmitInvocation(decision: Decision, invocation: Invocation, previous: Option<Invocation>) {
    && invocation.kind == INVOCATION_KIND
    && match previous
       case None => invocation in decision.ready
       case Some(before) =>
         && before.operationRevision != ""
         && before.operation in decision.revisions
         && decision.revisions[before.operation] == before.operationRevision == invocation.operationRevision
         && (before == invocation || invocation in decision.ready)
         && before.key == invocation.key
  }

  // ----- files -----

  datatype Path =
    | AttemptPath(key: string)
    | ResultPath(key: string)
    | RunPath(key: string)
    | TerminalPath(key: string)
    | CompletionPath(key: string)
    | Destination(name: string)
    | Prepared(name: string, invocation: Invocation)

  datatype Evidence = Evidence(target: string, path: Path, owner: string, revision: Record)

  datatype Custody = Custody(attempt: Evidence, committed: Option<Evidence>)

  datatype Doc =
    | EffectDoc(record: Record)
    | RunDoc(invocation: Invocation, custody: Custody)
    | TerminalDoc(custody: Custody, outcome: Outcome)
    | PublicationDoc(invocation: Invocation, custody: Custody)

  type Call = nat

  /** A file, the call that created it, and its content once completely written. */
  datatype File = File(creator: Call, doc: Option<Doc>)

  type Files = map<Path, File>

  predicate Has(files: Files, path: Path, doc: Doc) {
    path in files && files[path].doc == Some(doc)
  }

  /** Files appear, are completed once, and otherwise stay as they are. */
  ghost predicate Grows(files: Files, files': Files) {
    forall p :: p in files ==>
      p in files' && files'[p].creator == files[p].creator && (files[p].doc.Some? ==> files'[p] == files[p])
  }

  lemma GrowsTransitive(a: Files, b: Files, c: Files)
    requires Grows(a, b) && Grows(b, c)
    ensures Grows(a, c)
  {
  }

  lemma PutTouches(files: Files, path: Path, me: Call, doc: Option<Doc>)
    requires path in files ==> files[path] == File(me, None)
    ensures Touches(me, files, files[path := File(me, doc)])
  {
  }

  /** One call's step touches only files it created. */
  ghost predicate Touches(me: Call, files: Files, files': Files) {
    && Grows(files, files')
    && (forall p :: p in files && files[p].creator != me ==> files'[p] == files[p])
    && forall p :: p in files' && p !in files ==> files'[p].creator == me
  }

  function EvidenceFor(root: string, path: Path, record: Record): Evidence {
    Evidence(root, path, record.invocation.owner, record)
  }

  /** `read`: the file is there and is exactly the evidence in custody. */
  predicate Reads(root: string, files: Files, evidence: Evidence) {
    && evidence.target == root
    && (evidence.path.AttemptPath? || evidence.path.ResultPath?)
    && Has(files, evidence.path, EffectDoc(evidence.revision))
    && evidence.revision.invocation.owner == evidence.owner
  }

  // ----- one call, one file operation at a time -----

  datatype Request =
    | Admit(decision: Decision, invocation: Invocation, custody: Option<Custody>)
    | Commit(held: Custody, outcome: Outcome)
    | Prepare(held: Custody, outcome: Outcome)
    | Inspect(held: Custody)

  datatype Disposition = Execute | Replay | Uncertain

  datatype Reply =
    | Failed
    | Admitted(disposition: Disposition, record: Record, custody: Custody)
    | Returned(record: Record, custody: Custody)

  datatype Pc =
    | Start
    | ReadResult(admitted: Record)
    | Stat(record: Record)
    | Open(record: Record)
    | Write(record: Record)
    | Done(reply: Reply)

  function AdmitRetained(request: Request, record: Record): Reply
    requires request.Admit? && request.custody.Some?
  {
    if Intact(record) && AdmitInvocation(request.decision, request.invocation, Some(record.invocation))
    then Admitted(if record.outcome.Some? then Replay else Uncertain, record, request.custody.value)
    else Failed
  }

  function ResultEvidence(root: string, record: Record): Evidence {
    EvidenceFor(root, ResultPath(record.invocation.key), record)
  }

  function AttemptEvidence(root: string, record: Record): Evidence {
    EvidenceFor(root, AttemptPath(record.invocation.key), record)
  }

  /** The attempt file in custody is the one of its own effect, in this root. */
  predicate Holds(root: string, files: Files, held: Custody) {
    var invocation := held.attempt.revision.invocation;
    && Reads(root, files, held.attempt)
    && invocation.target == root
    && held.attempt.path == AttemptPath(invocation.key)
  }

  function StepStart(root: string, files: Files, request: Request): Pc {
    match request
    case Admit(decision, invocation, custody) =>
      if invocation.key == "" || invocation.target != root then Done(Failed)
      else if custody.None? then
        if AdmitInvocation(decision, invocation, None) then Stat(Sealed(invocation, None)) else Done(Failed)
      else
        var held := custody.value;
        if held.attempt.path != AttemptPath(invocation.key) || !Reads(root, files, held.attempt) then Done(Failed)
        else if held.committed.None? then Done(AdmitRetained(request, held.attempt.revision))
        else if held.committed.value.path != ResultPath(invocation.key) then Done(Failed)
        else ReadResult(held.attempt.revision)
    case Commit(held, outcome) =>
      if !Holds(root, files, held) then Done(Failed)
      else match CommitRecord(held.attempt.revision, outcome) {
        case None => Done(Failed)
        case Some(record) => if held.committed.None? then Open(record) else ReadResult(record)
      }
    case Prepare(held, outcome) =>
      if !Holds(root, files, held) then Done(Failed)
      else match CommitRecord(held.attempt.revision, outcome) {
        case None => Done(Failed)
        case Some(record) => Stat(record)
      }
    case Inspect(held) =>
      if !Holds(root, files, held) || held.committed.None? then Done(Failed)
      else if held.committed.value.path != ResultPath(held.attempt.revision.invocation.key) then Done(Failed)
      else ReadResult(held.attempt.revision)
  }

  function InCustody(request: Request): Option<Custody> {
    if request.Admit? then request.custody else Some(request.held)
  }

  /** The step that reads the result file in custody; `expected` is the admitted record, or
      the record being committed. */
  function StepReadResult(root: string, files: Files, request: Request, expected: Record): Reply {
    var custody := InCustody(request);
    if custody.None? || custody.value.committed.None? then Failed
    else
      var result := custody.value.committed.value;
      var record := result.revision;
      if !Reads(root, files, result) then Failed
      else match request
        case Admit(_, _, _) =>
          if record.invocation == expected.invocation && record.attempt == expected.attempt
          then AdmitRetained(request, record) else Failed
        case Inspect(_) =>
          if record.outcome.Some? && CommitRecord(expected, record.outcome.value) == Some(record)
          then Returned(record, custody.value) else Failed
        case _ =>
          if result.path == ResultPath(expected.invocation.key) && record == expected
          then Returned(record, custody.value) else Failed
  }

  /** One file operation.  `Open` is create-new: it fails when the file exists. */
  function Step(root: string, request: Request, pc: Pc, me: Call, files: Files): (Pc, Files) {
    match pc
    case Start => (StepStart(root, files, request), files)
    case ReadResult(admitted) => (Done(StepReadResult(root, files, request, admitted)), files)
    case Stat(record) =>
      var result := ResultEvidence(root, record);
      if request.Prepare? then
        if result.path in files && !Reads(root, files, result) then (Done(Failed), files)
        else if request.held.committed !in [None, Some(result)] then (Done(Failed), files)
        else (Done(Created(root, request, record)), files)
      else if result.path in files then (Done(Failed), files)
      else (Open(record), files)
    case Open(record) =>
      var path := Target(request, record);
      if path in files then (Done(Failed), files) else (Write(record), files[path := File(me, None)])
    case Write(record) =>
      (Done(Created(root, request, record)), files[Target(request, record) := File(me, Some(EffectDoc(record)))])
    case Done(_) => (pc, files)
  }

  function Target(request: Request, record: Record): Path {
    if request.Admit? then AttemptPath(record.invocation.key) else ResultPath(record.invocation.key)
  }

  /** What a call that made or planned its file returns. */
  function Created(root: string, request: Request, record: Record): Reply {
    match request
    case Admit(_, _, _) => Admitted(Execute, record, Custody(AttemptEvidence(root, record), None))
    case _ => Returned(record, Custody(request.held.attempt, Some(ResultEvidence(root, record))))
  }

  // ----- what each call knows at each point -----

  /** The result this request commits, plans or checks is the one its attempt allows. */
  ghost predicate Plans(root: string, files: Files, request: Request, record: Record) {
    && (request.Commit? || request.Prepare?)
    && Holds(root, files, request.held)
    && CommitRecord(request.held.attempt.revision, request.outcome) == Some(record)
  }

  ghost predicate Fresh(root: string, request: Request, record: Record) {
    && request.Admit? && request.custody.None?
    && request.invocation.key != "" && request.invocation.target == root
    && request.invocation.kind == INVOCATION_KIND && request.invocation in request.decision.ready
    && record == Sealed(request.invocation, None)
  }

  /** A retained custody backs the record a replay or an uncertain admission returns. */
  ghost predicate Retained(files: Files, request: Request, record: Record, custody: Custody) {
    && request.Admit? && request.custody == Some(custody)
    && record.invocation.key == request.invocation.key
    && match custody.committed
       case None => Has(files, AttemptPath(request.invocation.key), EffectDoc(record))
       case Some(_) => Has(files, ResultPath(request.invocation.key), EffectDoc(record))
  }

  /** The retained operation still means what it meant, at its own revision, and the request is the
      retained invocation or is offered now. */
  ghost predicate StillMeant(request: Request, record: Record)
    requires request.Admit?
  {
    var before := record.invocation;
    && request.invocation.kind == INVOCATION_KIND
    && before.operationRevision != "" && request.invocation.operationRevision == before.operationRevision
    && before.operation in request.decision.revisions
    && request.decision.revisions[before.operation] == before.operationRevision
    && (request.invocation == before || request.invocation in request.decision.ready)
  }

  ghost predicate ReplyOk(root: string, files: Files, me: Call, request: Request, reply: Reply) {
    match reply
    case Failed => true
    case Admitted(Execute, record, custody) =>
      && Fresh(root, request, record)
      && Has(files, AttemptPath(request.invocation.key), EffectDoc(record))
      && files[AttemptPath(request.invocation.key)].creator == me
      && custody == Custody(AttemptEvidence(root, record), None)
    case Admitted(disposition, record, custody) =>
      && Retained(files, request, record, custody) && StillMeant(request, record)
      && (disposition.Replay? <==> record.outcome.Some?)
    case Returned(record, custody) =>
      && !request.Admit?
      && Holds(root, files, request.held)
      && record.outcome.Some?
      && CommitRecord(request.held.attempt.revision, record.outcome.value) == Some(record)
      && (request.Inspect? ==> custody == request.held)
      && (!request.Inspect? ==> record.outcome == Some(request.outcome))
      && custody == Custody(request.held.attempt, Some(ResultEvidence(root, record)))
      && (!request.Prepare? ==> Has(files, ResultPath(record.invocation.key), EffectDoc(record)))
  }

  ghost predicate PcOk(root: string, files: Files, me: Call, request: Request, pc: Pc) {
    match pc
    case Start => true
    case ReadResult(expected) =>
      match request {
        case Admit(_, _, custody) =>
          && custody.Some? && custody.value.committed.Some?
          && custody.value.attempt.path == AttemptPath(request.invocation.key)
          && Has(files, AttemptPath(request.invocation.key), EffectDoc(expected))
          && custody.value.committed.value.path == ResultPath(request.invocation.key)
        case Inspect(held) =>
          && Holds(root, files, held) && held.committed.Some? && expected == held.attempt.revision
          && held.committed.value.path == ResultPath(expected.invocation.key)
        case _ => request.Commit? && Plans(root, files, request, expected)
      }
    case Stat(record) => Fresh(root, request, record) || (request.Prepare? && Plans(root, files, request, record))
    case Open(record) => Fresh(root, request, record) || (request.Commit? && Plans(root, files, request, record))
    case Write(record) =>
      && (Fresh(root, request, record) || (request.Commit? && Plans(root, files, request, record)))
      && var path := Target(request, record);
      && path in files && files[path] == File(me, None)
    case Done(reply) => ReplyOk(root, files, me, request, reply)
  }

  /** Attempt files hold the fresh record of their own effect; result files hold what
      committing that record gives. */
  ghost predicate FilesOk(root: string, files: Files) {
    && (forall key :: AttemptPath(key) in files && files[AttemptPath(key)].doc.Some? ==>
          exists invocation: Invocation ::
            invocation.key == key != "" && files[AttemptPath(key)].doc == Some(EffectDoc(Sealed(invocation, None))))
    && (forall key :: ResultPath(key) in files && files[ResultPath(key)].doc.Some? ==>
          exists invocation: Invocation, outcome ::
            && Has(files, AttemptPath(key), EffectDoc(Sealed(invocation, None)))
            && ValidOutcome(invocation, outcome)
            && files[ResultPath(key)].doc == Some(EffectDoc(Sealed(invocation, Some(outcome)))))
  }

  /** What a call knows stays true while other calls step. */
  lemma Stable(root: string, files: Files, files': Files, me: Call, other: Call, request: Request, pc: Pc)
    requires PcOk(root, files, me, request, pc) && Touches(other, files, files') && me != other
    ensures PcOk(root, files', me, request, pc)
  {
  }

  lemma StartKeeps(root: string, files: Files, me: Call, request: Request)
    ensures PcOk(root, files, me, request, StepStart(root, files, request))
  {
  }

  lemma ReadResultKeeps(root: string, files: Files, me: Call, request: Request, expected: Record)
    requires PcOk(root, files, me, request, ReadResult(expected))
    ensures ReplyOk(root, files, me, request, StepReadResult(root, files, request, expected))
  {
  }

  lemma StepKeeps(root: string, files: Files, me: Call, request: Request, pc: Pc)
    requires PcOk(root, files, me, request, pc)
    ensures var (pc', files') := Step(root, request, pc, me, files);
            Touches(me, files, files') && PcOk(root, files', me, request, pc')
  {
    if pc.Start? {
      StartKeeps(root, files, me, request);
    } else if pc.ReadResult? {
      ReadResultKeeps(root, files, me, request, pc.admitted);
    }
  }

  lemma StepKeepsFiles(root: string, files: Files, me: Call, request: Request, pc: Pc)
    requires PcOk(root, files, me, request, pc) && FilesOk(root, files)
    ensures FilesOk(root, Step(root, request, pc, me, files).1)
  {
    var files' := Step(root, request, pc, me, files).1;
    if pc.Write? && request.Commit? {
      var key := pc.record.invocation.key;
      var admitted := request.held.attempt.revision;
      assert AttemptPath(key) in files && files[AttemptPath(key)].doc.Some?;
      var invocation: Invocation :| invocation.key == key != ""
          && files[AttemptPath(key)].doc == Some(EffectDoc(Sealed(invocation, None)));
      assert admitted == Sealed(invocation, None);
      CommitSeals(invocation, request.outcome);
      assert pc.record == Sealed(invocation, Some(request.outcome));
    }
    StepKeeps(root, files, me, request, pc);
    forall key | ResultPath(key) in files' && files'[ResultPath(key)].doc.Some?
      ensures exists invocation: Invocation, outcome ::
            && Has(files', AttemptPath(key), EffectDoc(Sealed(invocation, None)))
            && ValidOutcome(invocation, outcome)
            && files'[ResultPath(key)].doc == Some(EffectDoc(Sealed(invocation, Some(outcome))))
    {
      if ResultPath(key) in files && files[ResultPath(key)].doc.Some? {
        var invocation: Invocation, outcome :|
            && Has(files, AttemptPath(key), EffectDoc(Sealed(invocation, None)))
            && ValidOutcome(invocation, outcome)
            && files[ResultPath(key)].doc == Some(EffectDoc(Sealed(invocation, Some(outcome))));
        assert Has(files', AttemptPath(key), EffectDoc(Sealed(invocation, None)));
      }
    }
  }

  // ----- what an owner's own files say about an attempt -----

  function RunCustody(root: string, invocation: Invocation): Custody {
    Custody(AttemptEvidence(root, Sealed(invocation, None)), None)
  }

  function Planned(root: string, invocation: Invocation, outcome: Outcome): Custody {
    Custody(AttemptEvidence(root, Sealed(invocation, None)),
            Some(ResultEvidence(root, Sealed(invocation, Some(outcome)))))
  }

  ghost predicate Attempted(root: string, files: Files, invocation: Invocation) {
    && Has(files, AttemptPath(invocation.key), EffectDoc(Sealed(invocation, None)))
    && invocation.target == root && invocation.key != ""
  }

  predicate Full(files: Files, path: Path) {
    path in files && files[path].doc.Some?
  }

  ghost predicate AttemptOk(root: string, files: Files, key: string) {
    Full(files, AttemptPath(key)) ==>
      var doc := files[AttemptPath(key)].doc.value;
      doc.EffectDoc? && doc.record.invocation.key == key && Attempted(root, files, doc.record.invocation)
  }

  /** A file under creation: still torn, or complete with this document. */
  ghost predicate Holding(file: File, doc: Doc) {
    file.doc in [None, Some(doc)]
  }

  predicate TornFile(files: Files, path: Path) {
    path in files && files[path].doc.None?
  }

  // ----- any number of concurrent calls -----

  datatype System = System(files: Files, calls: map<Call, (Request, Pc)>)

  /** A new call arrives, or some call makes its next step. */
  ghost predicate Next(root: string, s: System, s': System) {
    || (exists c: Call, request :: c !in s.calls && s' == s.(calls := s.calls[c := (request, Start)]))
    || (exists c :: c in s.calls && Advances(root, s, s', c))
  }

  ghost predicate Advances(root: string, s: System, s': System, c: Call)
    requires c in s.calls
  {
    var (request, pc) := s.calls[c];
    var (pc', files') := Step(root, request, pc, c, s.files);
    s' == System(files', s.calls[c := (request, pc')])
  }

  /** A run from a root without effect files. */
  ghost predicate Run(root: string, run: seq<System>) {
    && run != [] && run[0] == System(map[], map[])
    && forall i :: 0 <= i < |run| - 1 ==> Next(root, run[i], run[i + 1])
  }

  ghost predicate Consistent(root: string, s: System) {
    && FilesOk(root, s.files)
    && forall c :: c in s.calls ==> PcOk(root, s.files, c, s.calls[c].0, s.calls[c].1)
  }

  /** Replies once given stay given. */
  ghost predicate Remembers(s: System, s': System) {
    forall c :: c in s.calls && s.calls[c].1.Done? ==> c in s'.calls && s'.calls[c] == s.calls[c]
  }

  lemma RemembersTransitive(a: System, b: System, c: System)
    requires Remembers(a, b) && Remembers(b, c)
    ensures Remembers(a, c)
  {
  }

  lemma NextKeeps(root: string, s: System, s': System)
    requires Consistent(root, s) && Next(root, s, s')
    ensures Consistent(root, s') && Grows(s.files, s'.files)
    ensures Remembers(s, s')
  {
    if c :| c in s.calls && Advances(root, s, s', c) {
      var (request, pc) := s.calls[c];
      StepKeeps(root, s.files, c, request, pc);
      StepKeepsFiles(root, s.files, c, request, pc);
      forall d | d in s'.calls && d != c
        ensures PcOk(root, s'.files, d, s'.calls[d].0, s'.calls[d].1)
      {
        Stable(root, s.files, s'.files, d, c, s.calls[d].0, s.calls[d].1);
      }
    }
  }

  lemma {:induction false} AlwaysConsistent(root: string, run: seq<System>, i: nat)
    requires Run(root, run) && i < |run|
    ensures Consistent(root, run[i])
  {
    if i > 0 {
      AlwaysConsistent(root, run, i - 1);
      NextKeeps(root, run[i - 1], run[i]);
    }
  }

  /** Along a run files only grow, and a reply once given stays. */
  lemma {:induction false} RunKeeps(root: string, run: seq<System>, i: nat, j: nat)
    requires Run(root, run) && i <= j < |run|
    ensures Consistent(root, run[j]) && Grows(run[i].files, run[j].files)
    ensures Remembers(run[i], run[j])
    decreases j
  {
    AlwaysConsistent(root, run, j);
    if i < j {
      RunKeeps(root, run, i, j - 1);
      NextKeeps(root, run[j - 1], run[j]);
      GrowsTransitive(run[i].files, run[j - 1].files, run[j].files);
      RemembersTransitive(run[i], run[j - 1], run[j]);
    }
  }

  ghost predicate Replied(s: System, c: Call, reply: Reply) {
    c in s.calls && s.calls[c].1 == Done(reply)
  }

  /** Over every run, at most one call per logical effect is told to execute it. */
  lemma AtMostOneExecutes(root: string, run: seq<System>, i: nat, j: nat, c: Call, d: Call, r: Reply, q: Reply)
    requires Run(root, run) && i < |run| && j < |run|
    requires Replied(run[i], c, r) && r.Admitted? && r.disposition.Execute?
    requires Replied(run[j], d, q) && q.Admitted? && q.disposition.Execute?
    requires r.record.invocation.key == q.record.invocation.key
    ensures c == d && r == q
  {
    var last := |run| - 1;
    RunKeeps(root, run, i, last);
    RunKeeps(root, run, j, last);
  }

  /** Nobody is told to execute anything but an action the decision offers, and a retained effect is
      taken up only while its operation still means the same. */
  lemma AdmissionsAreCurrent(root: string, run: seq<System>, n: nat, c: Call, r: Reply)
    requires Run(root, run) && n < |run| && Replied(run[n], c, r) && r.Admitted?
    ensures var request := run[n].calls[c].0;
      && request.Admit? && request.invocation.kind == INVOCATION_KIND
      && (r.disposition.Execute? ==>
          request.invocation in request.decision.ready && r.record.invocation == request.invocation)
      && (!r.disposition.Execute? ==>
            && r.record.invocation.operationRevision != ""
            && r.record.invocation.operation in request.decision.revisions
            && request.decision.revisions[r.record.invocation.operation] == r.record.invocation.operationRevision
            && request.invocation.operationRevision == r.record.invocation.operationRevision
            && request.invocation.key == r.record.invocation.key
            && (request.invocation == r.record.invocation || request.invocation in request.decision.ready))
  {
    AlwaysConsistent(root, run, n);
  }

  /** A committed reply: a replay, a commit or an inspection. */
  ghost predicate Settles(s: System, c: Call, reply: Reply) {
    && Replied(s, c, reply)
    && ((reply.Admitted? && reply.disposition.Replay?) || (reply.Returned? && !s.calls[c].0.Prepare?))
  }

  lemma SettledIsTheResult(root: string, s: System, c: Call, reply: Reply)
    requires Consistent(root, s) && Settles(s, c, reply)
    ensures Has(s.files, ResultPath(reply.record.invocation.key), EffectDoc(reply.record))
  {
    assert PcOk(root, s.files, c, s.calls[c].0, s.calls[c].1);
  }

  /** The result file of an effect is written once: whatever a replay, a commit or an
      inspection of that effect returns, at any time, is the same record and outcome. */
  lemma OneOutcome(root: string, run: seq<System>, i: nat, j: nat, c: Call, d: Call, r: Reply, q: Reply)
    requires Run(root, run) && i < |run| && j < |run|
    requires Settles(run[i], c, r) && Settles(run[j], d, q)
    requires r.record.invocation.key == q.record.invocation.key
    ensures r.record == q.record && r.record.outcome.Some?
  {
    var last := |run| - 1;
    RunKeeps(root, run, i, last);
    RunKeeps(root, run, j, last);
    SettledIsTheResult(root, run[last], c, r);
    SettledIsTheResult(root, run[last], d, q);
  }

  /** The call told to execute made the attempt record every later settled reply belongs to. */
  lemma OutcomeBelongsToTheAttempt(root: string, run: seq<System>, i: nat, j: nat, c: Call, d: Call, r: Reply, q: Reply)
    requires Run(root, run) && i < |run| && j < |run|
    requires Replied(run[i], c, r) && r.Admitted? && r.disposition.Execute?
    requires Settles(run[j], d, q) && q.record.invocation.key == r.record.invocation.key
    ensures q.record.outcome.Some? && CommitRecord(r.record, q.record.outcome.value) == Some(q.record)
  {
    var last := |run| - 1;
    RunKeeps(root, run, i, last);
    RunKeeps(root, run, j, last);
    SettledIsTheResult(root, run[last], d, q);
    var key := q.record.invocation.key;
    var invocation: Invocation, outcome :|
        && Has(run[last].files, AttemptPath(key), EffectDoc(Sealed(invocation, None)))
        && ValidOutcome(invocation, outcome)
        && run[last].files[ResultPath(key)].doc == Some(EffectDoc(Sealed(invocation, Some(outcome))));
    CommitSeals(invocation, outcome);
  }

  /** The custody planned before publication is the custody the commit later returns. */
  lemma PlannedCustodyIsCommitted(root: string, run: seq<System>, i: nat, j: nat, c: Call, d: Call, r: Reply, q: Reply)
    requires Run(root, run) && i < |run| && j < |run|
    requires Replied(run[i], c, r) && r.Returned? && run[i].calls[c].0.Prepare?
    requires Replied(run[j], d, q) && q.Returned? && run[j].calls[d].0.Commit?
    requires run[i].calls[c].0.held.attempt == run[j].calls[d].0.held.attempt
    requires run[i].calls[c].0.outcome == run[j].calls[d].0.outcome
    ensures r == q
  {
    AlwaysConsistent(root, run, i);
    AlwaysConsistent(root, run, j);
  }
}
