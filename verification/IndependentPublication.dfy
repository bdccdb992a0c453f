/** Publication of an independent owner's source
    (src/core/src/native_independent_publication.rs) over the effect store.  The carrier is
    prepared in a temporary, hard-linked to its destination and only then committed.  The
    destination lock is left out: calls interleave as if it excluded nobody. */
module IndependentPublication {
  import opened Wrappers
  import opened Effects
  import Machine

  datatype Job = Job(root: string, decision: Decision, invocation: Invocation)

  /** Whether the revalidation a step performs succeeds. */
  type Revalidated = bool

  function OutcomeOf(invocation: Invocation): Outcome {
    Outcome("applied", invocation.effects, invocation.value)
  }

  /** The custody every carrier of the invocation names: its attempt and its future result. */
  function CarrierCustody(root: string, invocation: Invocation): Custody {
    Planned(root, invocation, OutcomeOf(invocation))
  }

  function Carrier(root: string, invocation: Invocation): Doc {
    PublicationDoc(invocation, CarrierCustody(root, invocation))
  }

  function PreparedPath(invocation: Invocation): Path {
    Prepared(invocation.destination, invocation)
  }

  /** One JSON source directly inside the owner's own module directory. */
  predicate OwnedDestination(invocation: Invocation) {
    var prefix := ".agentic-workspace/modules/" + invocation.owner + "/";
    && prefix <= invocation.destination
    && var leaf := invocation.destination[|prefix|..];
    '/' !in leaf && |leaf| >= 5 && leaf[|leaf| - 5..] == ".json"
  }

  datatype PublicationPc =
    | Begin
    | ReadDestination
    | ReadPrepared
    | Check(held: Custody, published: bool, sub: Effects.Pc)
    | CheckCommitted(held: Custody, published: bool, sub: Effects.Pc)
    | Admitting(sub: Effects.Pc)
    | Planning(held: Custody, previous: Option<bool>, sub: Effects.Pc)
    | OpenPrepared(held: Custody, planned: Custody)
    | WritePrepared(held: Custody, planned: Custody)
    | ReadAgain(held: Custody, planned: Custody)
    | Link(held: Custody, planned: Custody)
    | Verify(held: Custody, planned: Custody)
    | Committing(held: Custody, sub: Effects.Pc)
    | Finished(result: Option<(Outcome, Custody)>)

  type Pc = PublicationPc

  const Stop: Pc := Finished(None)

  predicate InStore(pc: Pc) {
    pc.Check? || pc.CheckCommitted? || pc.Admitting? || pc.Planning? || pc.Committing?
  }

  function SubRequest(job: Job, pc: Pc): Request
    requires InStore(pc)
  {
    var outcome := OutcomeOf(job.invocation);
    match pc
    case Check(held, _, _) => Prepare(held, outcome)
    case CheckCommitted(held, _, _) => Inspect(held)
    case Admitting(_) => Admit(job.decision, job.invocation, None)
    case Planning(held, _, _) => Prepare(held, outcome)
    case Committing(held, _) => Commit(held, outcome)
  }

  function AfterStore(job: Job, pc: Pc, reply: Reply): Pc
    requires InStore(pc)
  {
    match pc
    case Check(held, published, _) =>
      if reply.Returned? && reply.record.invocation == job.invocation && reply.custody == held
      then CheckCommitted(held, published, Start) else Stop
    case CheckCommitted(held, published, _) =>
      if !reply.Returned? then Planning(held, Some(published), Start)
      else if published then Finished(Some((OutcomeOf(job.invocation), held))) else Stop
    case Admitting(_) =>
      if reply.Admitted? then Planning(reply.custody, None, Start) else Stop
    case Planning(held, previous, _) =>
      if !reply.Returned? then Stop
      else match previous {
        case None => OpenPrepared(held, reply.custody)
        case Some(true) => Verify(held, reply.custody)
        case Some(false) => ReadAgain(held, reply.custody)
      }
    case Committing(_, _) =>
      if reply.Returned? then Finished(Some((OutcomeOf(job.invocation), reply.custody))) else Stop
  }

  /** An existing carrier is taken up only when it names this very invocation. */
  function AfterCarrier(job: Job, doc: Option<Doc>, published: bool): Pc {
    match doc
    case Some(PublicationDoc(invocation, held)) =>
      if invocation == job.invocation then Check(held, published, Start) else Stop
    case _ => Stop
  }

  function Step(job: Job, pc: Pc, me: Call, files: Files, current: Revalidated): (Pc, Files) {
    if InStore(pc) then StoreStep(job, pc, me, files) else FileStep(job, pc, me, files, current)
  }

  function StoreStep(job: Job, pc: Pc, me: Call, files: Files): (Pc, Files)
    requires InStore(pc)
  {
    if pc.sub.Done? then (AfterStore(job, pc, pc.sub.reply), files)
    else
      var (sub, files') := Effects.Step(job.root, SubRequest(job, pc), pc.sub, me, files);
      (pc.(sub := sub), files')
  }

  function FileStep(job: Job, pc: Pc, me: Call, files: Files, current: Revalidated): (Pc, Files)
    requires !InStore(pc)
  {
    var destination, prepared := Destination(job.invocation.destination), PreparedPath(job.invocation);
    match pc
    case Begin => (if OwnedDestination(job.invocation) && current then ReadDestination else Stop, files)
    case ReadDestination =>
      (if destination in files then AfterCarrier(job, files[destination].doc, true) else ReadPrepared, files)
    case ReadPrepared =>
      (if prepared in files then AfterCarrier(job, files[prepared].doc, false) else Admitting(Start), files)
    case OpenPrepared(held, planned) =>
      if prepared in files then (Stop, files) else (WritePrepared(held, planned), files[prepared := File(me, None)])
    case WritePrepared(held, planned) =>
      (if current then Link(held, planned) else Stop,
       files[prepared := File(me, Some(PublicationDoc(job.invocation, planned)))])
    case ReadAgain(held, planned) =>
      (if Has(files, prepared, PublicationDoc(job.invocation, planned)) && current then Link(held, planned) else Stop,
       files)
    case Link(held, planned) =>
      if destination in files || !Full(files, prepared) then (Stop, files)
      else (Verify(held, planned), files[destination := File(me, files[prepared].doc)])
    case Verify(held, planned) =>
      (if current && Has(files, destination, PublicationDoc(job.invocation, planned))
       then Committing(held.(committed := None), Start) else Stop, files)
    case Finished(_) => (pc, files)
  }

  // ----- what the files say to each other -----

  ghost predicate Published(root: string, files: Files, invocation: Invocation) {
    Has(files, Destination(invocation.destination), Carrier(root, invocation))
  }

  ghost predicate PreparedOk(root: string, files: Files, name: string, invocation: Invocation) {
    Full(files, Prepared(name, invocation)) ==>
      && name == invocation.destination && Attempted(root, files, invocation)
      && ValidOutcome(invocation, OutcomeOf(invocation))
      && Has(files, Prepared(name, invocation), Carrier(root, invocation))
  }

  ghost predicate DestinationOk(root: string, files: Files, name: string) {
    Destination(name) in files ==>
      && Full(files, Destination(name))
      && var doc := files[Destination(name)].doc.value;
      && doc.PublicationDoc? && doc.invocation.destination == name
      && Attempted(root, files, doc.invocation) && ValidOutcome(doc.invocation, OutcomeOf(doc.invocation))
      && doc == Carrier(root, doc.invocation)
      && Has(files, PreparedPath(doc.invocation), doc)
  }

  /** A result, even a torn one, is preceded by the publication of its attempt's carrier. */
  ghost predicate ResultOk(root: string, files: Files, key: string) {
    ResultPath(key) in files ==>
      && Full(files, AttemptPath(key))
      && files[AttemptPath(key)].doc.value.EffectDoc?
      && var invocation := files[AttemptPath(key)].doc.value.record.invocation;
      && Published(root, files, invocation)
      && Holding(files[ResultPath(key)], EffectDoc(Sealed(invocation, Some(OutcomeOf(invocation)))))
  }

  ghost predicate FilesOk(root: string, files: Files) {
    && (forall key :: AttemptOk(root, files, key))
    && (forall name, invocation :: PreparedOk(root, files, name, invocation))
    && (forall name :: DestinationOk(root, files, name))
    && (forall key :: ResultOk(root, files, key))
  }

  // ----- what a call knows at each point -----

  ghost predicate Admissible(job: Job, files: Files, held: Custody) {
    && Attempted(job.root, files, job.invocation)
    && ValidOutcome(job.invocation, OutcomeOf(job.invocation))
    && held.attempt == AttemptEvidence(job.root, Sealed(job.invocation, None))
  }

  ghost predicate Plans(job: Job, files: Files, held: Custody, planned: Custody) {
    Admissible(job, files, held) && planned == CarrierCustody(job.root, job.invocation)
  }

  ghost predicate PcOk(job: Job, files: Files, me: Call, pc: Pc) {
    && (InStore(pc) ==> Effects.PcOk(job.root, files, me, SubRequest(job, pc), pc.sub))
    && var prepared := PreparedPath(job.invocation);
    match pc
    case Check(held, published, _) => Plans(job, files, held, held)
        && (published ==> Published(job.root, files, job.invocation))
    case CheckCommitted(held, published, _) =>
      Plans(job, files, held, held) && (published ==> Published(job.root, files, job.invocation))
    case Planning(held, previous, _) =>
      && Attempted(job.root, files, job.invocation)
      && held.attempt == AttemptEvidence(job.root, Sealed(job.invocation, None))
      && (previous == Some(true) ==> Published(job.root, files, job.invocation))
    case OpenPrepared(held, planned) => Plans(job, files, held, planned)
    case WritePrepared(held, planned) =>
      Plans(job, files, held, planned) && prepared in files && files[prepared] == File(me, None)
    case ReadAgain(held, planned) => Plans(job, files, held, planned)
    case Link(held, planned) => Plans(job, files, held, planned)
        && Has(files, prepared, Carrier(job.root, job.invocation))
    case Verify(held, planned) => Plans(job, files, held, planned)
    case Committing(held, _) => Admissible(job, files, held) && held.committed.None?
        && Published(job.root, files, job.invocation)
    case Finished(Some((outcome, custody))) =>
      && outcome == OutcomeOf(job.invocation) && custody == CarrierCustody(job.root, job.invocation)
      && Published(job.root, files, job.invocation)
      && Has(files, ResultPath(job.invocation.key), EffectDoc(Sealed(job.invocation, Some(outcome))))
    case _ => true
  }

  lemma Stable(job: Job, files: Files, files': Files, me: Call, other: Call, pc: Pc)
    requires PcOk(job, files, me, pc) && Touches(other, files, files') && me != other
    ensures PcOk(job, files', me, pc)
  {
    if InStore(pc) {
      Effects.Stable(job.root, files, files', me, other, SubRequest(job, pc), pc.sub);
    }
  }

  lemma StoreStepKeeps(job: Job, pc: Pc, me: Call, files: Files)
    requires InStore(pc) && !pc.sub.Done? && PcOk(job, files, me, pc)
    ensures var (pc', files') := StoreStep(job, pc, me, files);
            Touches(me, files, files') && PcOk(job, files', me, pc')
  {
    Effects.StepKeeps(job.root, files, me, SubRequest(job, pc), pc.sub);
  }

  lemma AnswerKeeps(job: Job, pc: Pc, me: Call, files: Files)
    requires InStore(pc) && pc.sub.Done? && PcOk(job, files, me, pc)
    ensures PcOk(job, files, me, AfterStore(job, pc, pc.sub.reply))
  {
    CommitSealsIfValid(job.invocation, OutcomeOf(job.invocation));
  }

  lemma CarrierKeeps(job: Job, me: Call, files: Files, doc: Option<Doc>, published: bool)
    requires doc.Some? ==>
      doc.value.PublicationDoc? && doc.value == Carrier(job.root, doc.value.invocation)
      && Attempted(job.root, files, doc.value.invocation)
          && ValidOutcome(doc.value.invocation, OutcomeOf(doc.value.invocation))
      && (published ==> Published(job.root, files, doc.value.invocation))
    ensures PcOk(job, files, me, AfterCarrier(job, doc, published))
  {
  }

  lemma CreateKeeps(job: Job, pc: Pc, me: Call, files: Files, current: Revalidated)
    requires (pc.OpenPrepared? || pc.WritePrepared? || pc.Link?) && PcOk(job, files, me, pc)
    ensures var (pc', files') := FileStep(job, pc, me, files, current);
            Touches(me, files, files') && PcOk(job, files', me, pc')
  {
  }

  lemma FileStepKeeps(job: Job, pc: Pc, me: Call, files: Files, current: Revalidated)
    requires !InStore(pc) && PcOk(job, files, me, pc)
    requires DestinationOk(job.root, files, job.invocation.destination)
    requires PreparedOk(job.root, files, job.invocation.destination, job.invocation)
    ensures var (pc', files') := FileStep(job, pc, me, files, current);
            Touches(me, files, files') && PcOk(job, files', me, pc')
  {
    var destination, prepared := Destination(job.invocation.destination), PreparedPath(job.invocation);
    match pc {
      case ReadDestination =>
        if destination in files { CarrierKeeps(job, me, files, files[destination].doc, true); }
      case ReadPrepared =>
        if prepared in files { CarrierKeeps(job, me, files, files[prepared].doc, false); }
      case OpenPrepared(_, _) => CreateKeeps(job, pc, me, files, current);
      case WritePrepared(_, _) => CreateKeeps(job, pc, me, files, current);
      case Link(_, _) => CreateKeeps(job, pc, me, files, current);
      case _ =>
    }
  }

  // ----- every step keeps the files consistent -----

  lemma PutAttempt(root: string, files: Files, invocation: Invocation, file: File)
    requires FilesOk(root, files) && !Full(files, AttemptPath(invocation.key))
    requires invocation.target == root && invocation.key != "" && Holding(file, EffectDoc(Sealed(invocation, None)))
    ensures FilesOk(root, files[AttemptPath(invocation.key) := file])
  {
    var files' := files[AttemptPath(invocation.key) := file];
    forall key ensures AttemptOk(root, files', key) { assert AttemptOk(root, files, key); }
    forall name, i ensures PreparedOk(root, files', name, i) { assert PreparedOk(root, files, name, i); }
    forall name ensures DestinationOk(root, files', name) { assert DestinationOk(root, files, name); }
    forall key ensures ResultOk(root, files', key) { assert ResultOk(root, files, key); }
  }

  lemma PutPrepared(root: string, files: Files, invocation: Invocation, file: File)
    requires FilesOk(root, files) && !Full(files, PreparedPath(invocation))
    requires Attempted(root, files, invocation) && ValidOutcome(invocation, OutcomeOf(invocation))
    requires Holding(file, Carrier(root, invocation))
    ensures FilesOk(root, files[PreparedPath(invocation) := file])
  {
    var files' := files[PreparedPath(invocation) := file];
    forall key ensures AttemptOk(root, files', key) { assert AttemptOk(root, files, key); }
    forall name, i ensures PreparedOk(root, files', name, i) { assert PreparedOk(root, files, name, i); }
    forall name ensures DestinationOk(root, files', name) { assert DestinationOk(root, files, name); }
    forall key ensures ResultOk(root, files', key) { assert ResultOk(root, files, key); }
  }

  lemma PutDestination(root: string, files: Files, invocation: Invocation, me: Call)
    requires FilesOk(root, files) && Destination(invocation.destination) !in files
    requires Has(files, PreparedPath(invocation), Carrier(root, invocation))
    ensures FilesOk(root, files[Destination(invocation.destination) := File(me, Some(Carrier(root, invocation)))])
  {
    var files' := files[Destination(invocation.destination) := File(me, Some(Carrier(root, invocation)))];
    assert PreparedOk(root, files, invocation.destination, invocation);
    forall key ensures AttemptOk(root, files', key) { assert AttemptOk(root, files, key); }
    forall name, i ensures PreparedOk(root, files', name, i) { assert PreparedOk(root, files, name, i); }
    forall name ensures DestinationOk(root, files', name) { assert DestinationOk(root, files, name); }
    forall key ensures ResultOk(root, files', key) { assert ResultOk(root, files, key); }
  }

  lemma PutResult(root: string, files: Files, invocation: Invocation, file: File)
    requires FilesOk(root, files) && !Full(files, ResultPath(invocation.key))
    requires Attempted(root, files, invocation) && Published(root, files, invocation)
    requires Holding(file, EffectDoc(Sealed(invocation, Some(OutcomeOf(invocation)))))
    ensures FilesOk(root, files[ResultPath(invocation.key) := file])
  {
    var files' := files[ResultPath(invocation.key) := file];
    forall key ensures AttemptOk(root, files', key) { assert AttemptOk(root, files, key); }
    forall name, i ensures PreparedOk(root, files', name, i) { assert PreparedOk(root, files, name, i); }
    forall name ensures DestinationOk(root, files', name) { assert DestinationOk(root, files, name); }
    forall key ensures ResultOk(root, files', key) { assert ResultOk(root, files, key); }
  }

  lemma StoreKeepsFiles(job: Job, pc: Pc, me: Call, files: Files)
    requires InStore(pc) && PcOk(job, files, me, pc) && FilesOk(job.root, files)
    ensures FilesOk(job.root, StoreStep(job, pc, me, files).1)
  {
    var files' := StoreStep(job, pc, me, files).1;
    if files' != files {
      if pc.Admitting? {
        PutAttempt(job.root, files, job.invocation, files'[AttemptPath(job.invocation.key)]);
      } else {
        CommitSealsIfValid(job.invocation, OutcomeOf(job.invocation));
        assert pc.sub.record == Sealed(job.invocation, Some(OutcomeOf(job.invocation)));
        PutResult(job.root, files, job.invocation, files'[ResultPath(job.invocation.key)]);
      }
    }
  }

  lemma FileKeepsFiles(job: Job, pc: Pc, me: Call, files: Files, current: Revalidated)
    requires !InStore(pc) && PcOk(job, files, me, pc) && FilesOk(job.root, files)
    ensures FilesOk(job.root, FileStep(job, pc, me, files, current).1)
  {
    var files' := FileStep(job, pc, me, files, current).1;
    if files' != files {
      if pc.Link? {
        PutDestination(job.root, files, job.invocation, me);
      } else {
        PutPrepared(job.root, files, job.invocation, files'[PreparedPath(job.invocation)]);
      }
    }
  }

  lemma StepKeeps(job: Job, pc: Pc, me: Call, files: Files, current: Revalidated)
    requires PcOk(job, files, me, pc) && FilesOk(job.root, files)
    ensures var (pc', files') := Step(job, pc, me, files, current);
            Touches(me, files, files') && PcOk(job, files', me, pc') && FilesOk(job.root, files')
  {
    if InStore(pc) {
      StoreKeepsFiles(job, pc, me, files);
      if pc.sub.Done? {
        AnswerKeeps(job, pc, me, files);
      } else {
        StoreStepKeeps(job, pc, me, files);
      }
    } else {
      FileStepKeeps(job, pc, me, files, current);
      FileKeepsFiles(job, pc, me, files, current);
    }
  }

  // ----- every run of concurrent, crashing and repeated calls -----

  datatype Host = Host(files: Files, calls: map<Call, (Job, Pc)>)

  ghost predicate Advances(s: Host, s': Host, c: Call, current: Revalidated)
    requires c in s.calls
  {
    var (job, pc) := s.calls[c];
    var (pc', files') := Step(job, pc, c, s.files, current);
    s' == Host(files', s.calls[c := (job, pc')])
  }

  ghost predicate Next(root: string, s: Host, s': Host) {
    || (exists c: Call, job: Job :: c !in s.calls && job.root == root && s' == s.(calls := s.calls[c := (job, Begin)]))
    || (exists c: Call, current: Revalidated :: c in s.calls && Advances(s, s', c, current))
  }

  ghost predicate Run(root: string, run: seq<Host>) {
    && run != [] && run[0] == Host(map[], map[])
    && forall i :: 0 <= i < |run| - 1 ==> Next(root, run[i], run[i + 1])
  }

  ghost predicate Consistent(root: string, s: Host) {
    && FilesOk(root, s.files)
    && forall c :: c in s.calls ==> s.calls[c].0.root == root && PcOk(s.calls[c].0, s.files, c, s.calls[c].1)
  }

  lemma NextKeeps(root: string, s: Host, s': Host)
    requires Consistent(root, s) && Next(root, s, s')
    ensures Consistent(root, s') && Grows(s.files, s'.files)
  {
    if c: Call, current: Revalidated :| c in s.calls && Advances(s, s', c, current) {
      var (job, pc) := s.calls[c];
      StepKeeps(job, pc, c, s.files, current);
      forall d | d in s'.calls && d != c
        ensures s'.calls[d].0.root == root && PcOk(s'.calls[d].0, s'.files, d, s'.calls[d].1)
      {
        Stable(s.calls[d].0, s.files, s'.files, d, c, s.calls[d].1);
      }
    }
  }

  lemma {:induction false} RunKeeps(root: string, run: seq<Host>, i: nat, j: nat)
    requires Run(root, run) && i <= j < |run|
    ensures Consistent(root, run[j]) && Grows(run[i].files, run[j].files)
    decreases j
  {
    if i < j {
      RunKeeps(root, run, i, j - 1);
      NextKeeps(root, run[j - 1], run[j]);
      GrowsTransitive(run[i].files, run[j - 1].files, run[j].files);
    } else if j > 0 {
      RunKeeps(root, run, j - 1, j - 1);
      NextKeeps(root, run[j - 1], run[j]);
    }
  }

  /** Commit implies publication: at every moment of every run, an effect has a result file
      only if its destination already holds the exact carrier of the admitted invocation,
      and from then on it keeps it. */
  lemma CommitImpliesPublication(root: string, run: seq<Host>, i: nat, j: nat, key: string)
    returns (invocation: Invocation)
    requires Run(root, run) && i <= j < |run| && ResultPath(key) in run[i].files
    ensures invocation.key == key && Attempted(root, run[i].files, invocation)
    ensures Published(root, run[i].files, invocation) && Published(root, run[j].files, invocation)
  {
    RunKeeps(root, run, i, i);
    RunKeeps(root, run, i, j);
    assert AttemptOk(root, run[i].files, key) && ResultOk(root, run[i].files, key);
    invocation := run[i].files[AttemptPath(key)].doc.value.record.invocation;
  }

  /** A successful call has published and committed, and returns the custody its carrier
      announced beforehand. */
  lemma SuccessIsPublished(root: string, run: seq<Host>, n: nat, c: Call)
    requires Run(root, run) && n < |run| && c in run[n].calls
    requires run[n].calls[c].1.Finished? && run[n].calls[c].1.result.Some?
    ensures var job := run[n].calls[c].0;
            && run[n].calls[c].1.result.value == (OutcomeOf(job.invocation), CarrierCustody(root, job.invocation))
            && Published(root, run[n].files, job.invocation)
            && Has(run[n].files, ResultPath(job.invocation.key),
                   EffectDoc(Sealed(job.invocation, Some(OutcomeOf(job.invocation)))))
  {
    RunKeeps(root, run, n, n);
  }

  /** A destination has one publication for ever: two successful calls that share it are for
      the same invocation. */
  lemma OnePublication(root: string, run: seq<Host>, i: nat, j: nat, c: Call, d: Call)
    requires Run(root, run) && i <= j < |run| && c in run[i].calls && d in run[j].calls
    requires run[i].calls[c].1.Finished? && run[i].calls[c].1.result.Some?
    requires run[j].calls[d].1.Finished? && run[j].calls[d].1.result.Some?
    requires run[i].calls[c].0.invocation.destination == run[j].calls[d].0.invocation.destination
    ensures run[i].calls[c].0.invocation == run[j].calls[d].0.invocation
  {
    SuccessIsPublished(root, run, i, c);
    SuccessIsPublished(root, run, j, d);
    RunKeeps(root, run, i, j);
  }

  // ----- recovery of one call left alone -----

  /** The call's steps with nobody else acting and every revalidation succeeding. */
  function Stepping(job: Job, me: Call): (Pc, Files) -> (Pc, Files) {
    (pc: Pc, files: Files) => Step(job, pc, me, files, true)
  }

  predicate Ended(pc: Pc) {
    pc.Finished?
  }

  ghost predicate Leads(job: Job, me: Call, start: Files, pc: Pc, files: Files) {
    Machine.Leads(Stepping(job, me), Ended, (Begin, start), (pc, files))
  }

  lemma Here(job: Job, me: Call, files: Files)
    ensures Leads(job, me, files, Begin, files)
  {
    Machine.Here(Stepping(job, me), Ended, (Begin, files));
  }

  lemma Then(job: Job, me: Call, start: Files, pc: Pc, files: Files, pc': Pc, files': Files)
    requires Leads(job, me, start, pc, files) && !pc.Finished?
    requires Step(job, pc, me, files, true) == (pc', files')
    ensures Leads(job, me, start, pc', files')
  {
    Machine.Then(Stepping(job, me), Ended, (Begin, start), (pc, files), (pc', files'));
  }

  /** The carrier of the invocation has been prepared in full. */
  ghost predicate Ready(job: Job, files: Files) {
    && FilesOk(job.root, files) && OwnedDestination(job.invocation)
    && Full(files, PreparedPath(job.invocation))
  }

  /** Somebody else's carrier sits at the destination. */
  predicate Foreign(job: Job, files: Files) {
    var destination := Destination(job.invocation.destination);
    destination in files && files[destination].doc.Some?
    && files[destination].doc.value.PublicationDoc? && files[destination].doc.value.invocation != job.invocation
  }

  lemma CommitFinishes(job: Job, me: Call, start: Files, files: Files, held: Custody) returns (files': Files)
    requires Ready(job, files) && Plans(job, files, held, held) && Published(job.root, files, job.invocation)
    requires ResultPath(job.invocation.key) !in files
    requires Leads(job, me, start, Verify(held, held), files)
    ensures Leads(job, me, start, Finished(Some((OutcomeOf(job.invocation), held))), files')
    ensures Has(files', ResultPath(job.invocation.key),
                EffectDoc(Sealed(job.invocation, Some(OutcomeOf(job.invocation)))))
    ensures Published(job.root, files', job.invocation)
  {
    Then(job, me, start, Verify(held, held), files, Committing(held.(committed := None), Start), files);
    files' := VerifiedFinishes(job, me, start, files, held);
  }

  lemma VerifiedFinishes(job: Job, me: Call, start: Files, files: Files, held: Custody) returns (files': Files)
    requires Plans(job, files, held, held) && Published(job.root, files, job.invocation)
    requires ResultPath(job.invocation.key) !in files
    requires Leads(job, me, start, Committing(held.(committed := None), Start), files)
    ensures Leads(job, me, start, Finished(Some((OutcomeOf(job.invocation), held))), files')
    ensures Has(files', ResultPath(job.invocation.key),
                EffectDoc(Sealed(job.invocation, Some(OutcomeOf(job.invocation)))))
    ensures Published(job.root, files', job.invocation)
  {
    var sealed := Sealed(job.invocation, Some(OutcomeOf(job.invocation)));
    var path := ResultPath(job.invocation.key);
    CommitSeals(job.invocation, OutcomeOf(job.invocation));
    var bare := held.(committed := None);
    Then(job, me, start, Committing(bare, Start), files, Committing(bare, Effects.Open(sealed)), files);
    var begun := files[path := File(me, None)];
    Then(job, me, start, Committing(bare, Effects.Open(sealed)), files, Committing(bare, Effects.Write(sealed)), begun);
    files' := begun[path := File(me, Some(EffectDoc(sealed)))];
    var answered := Committing(bare, Done(Returned(sealed, held)));
    Then(job, me, start, Committing(bare, Effects.Write(sealed)), begun, answered, files');
    Then(job, me, start, answered, files', Finished(Some((OutcomeOf(job.invocation), held))), files');
  }

  /** From the custody check: a torn result refuses, a whole one is returned, none is committed. */
  lemma CheckFinishes(job: Job, me: Call, start: Files, files: Files, published: bool) returns (files': Files)
    requires Ready(job, files)
    requires published <==> Published(job.root, files, job.invocation)
    requires Destination(job.invocation.destination) in files ==> published
    requires Leads(job, me, start, Check(CarrierCustody(job.root, job.invocation), published, Start), files)
    ensures Leads(job, me, start,
                  if TornFile(files, ResultPath(job.invocation.key)) then Stop
                  else Finished(Some((OutcomeOf(job.invocation), CarrierCustody(job.root, job.invocation)))), files')
    ensures !TornFile(files, ResultPath(job.invocation.key)) ==>
              Published(job.root, files', job.invocation)
              && Has(files', ResultPath(job.invocation.key),
                     EffectDoc(Sealed(job.invocation, Some(OutcomeOf(job.invocation)))))
  {
    var held, outcome := CarrierCustody(job.root, job.invocation), OutcomeOf(job.invocation);
    var sealed, path := Sealed(job.invocation, Some(outcome)), ResultPath(job.invocation.key);
    assert PreparedOk(job.root, files, job.invocation.destination, job.invocation);
    assert ResultOk(job.root, files, job.invocation.key);
    CommitSeals(job.invocation, outcome);
    files' := files;
    var stat := Check(held, published, Stat(sealed));
    Then(job, me, start, Check(held, published, Start), files, stat, files);
    if TornFile(files, path) {
      var failed := Check(held, published, Done(Failed));
      Then(job, me, start, stat, files, failed, files);
      Then(job, me, start, failed, files, Stop, files);
      return;
    }
    var checked := Check(held, published, Done(Returned(sealed, held)));
    Then(job, me, start, stat, files, checked, files);
    Then(job, me, start, checked, files, CheckCommitted(held, published, Start), files);
    files' := CheckedFinishes(job, me, start, files, published);
  }

  lemma CheckedFinishes(job: Job, me: Call, start: Files, files: Files, published: bool) returns (files': Files)
    requires Ready(job, files) && !TornFile(files, ResultPath(job.invocation.key))
    requires published <==> Published(job.root, files, job.invocation)
    requires Destination(job.invocation.destination) in files ==> published
    requires Leads(job, me, start, CheckCommitted(CarrierCustody(job.root, job.invocation), published, Start), files)
    ensures Leads(job, me, start,
                  Finished(Some((OutcomeOf(job.invocation), CarrierCustody(job.root, job.invocation)))), files')
    ensures Published(job.root, files', job.invocation)
    ensures Has(files', ResultPath(job.invocation.key),
                EffectDoc(Sealed(job.invocation, Some(OutcomeOf(job.invocation)))))
  {
    var held, outcome := CarrierCustody(job.root, job.invocation), OutcomeOf(job.invocation);
    var sealed, path := Sealed(job.invocation, Some(outcome)), ResultPath(job.invocation.key);
    assert PreparedOk(job.root, files, job.invocation.destination, job.invocation);
    assert ResultOk(job.root, files, job.invocation.key);
    CommitSeals(job.invocation, outcome);
    files' := files;
    var inspect := CheckCommitted(held, published, Start);
    var reading := CheckCommitted(held, published, ReadResult(Sealed(job.invocation, None)));
    Then(job, me, start, inspect, files, reading, files);
    if path in files {
      var found := CheckCommitted(held, published, Done(Returned(sealed, held)));
      Then(job, me, start, reading, files, found, files);
      Then(job, me, start, found, files, Finished(Some((outcome, held))), files);
    } else {
      var missing := CheckCommitted(held, published, Done(Failed));
      Then(job, me, start, reading, files, missing, files);
      Then(job, me, start, missing, files, Planning(held, Some(published), Start), files);
      files' := PlanFinishes(job, me, start, files, published);
    }
  }

  lemma PlanFinishes(job: Job, me: Call, start: Files, files: Files, published: bool) returns (files': Files)
    requires Ready(job, files) && ResultPath(job.invocation.key) !in files
    requires published <==> Published(job.root, files, job.invocation)
    requires Destination(job.invocation.destination) in files ==> published
    requires Leads(job, me, start, Planning(CarrierCustody(job.root, job.invocation), Some(published), Start), files)
    ensures Leads(job, me, start,
                  Finished(Some((OutcomeOf(job.invocation), CarrierCustody(job.root, job.invocation)))), files')
    ensures Published(job.root, files', job.invocation)
    ensures Has(files', ResultPath(job.invocation.key),
                EffectDoc(Sealed(job.invocation, Some(OutcomeOf(job.invocation)))))
  {
    var held, outcome := CarrierCustody(job.root, job.invocation), OutcomeOf(job.invocation);
    var sealed := Sealed(job.invocation, Some(outcome));
    assert PreparedOk(job.root, files, job.invocation.destination, job.invocation);
    CommitSeals(job.invocation, outcome);
    var stat := Planning(held, Some(published), Stat(sealed));
    Then(job, me, start, Planning(held, Some(published), Start), files, stat, files);
    var planned := Planning(held, Some(published), Done(Returned(sealed, held)));
    Then(job, me, start, stat, files, planned, files);
    if published {
      Then(job, me, start, planned, files, Verify(held, held), files);
      files' := CommitFinishes(job, me, start, files, held);
    } else {
      Then(job, me, start, planned, files, ReadAgain(held, held), files);
      Then(job, me, start, ReadAgain(held, held), files, Link(held, held), files);
      var linked := files[Destination(job.invocation.destination) := File(me, Some(Carrier(job.root, job.invocation)))];
      Then(job, me, start, Link(held, held), files, Verify(held, held), linked);
      PutDestination(job.root, files, job.invocation, me);
      files' := CommitFinishes(job, me, start, linked, held);
    }
  }

  /** Recovery is exact: once the carrier is prepared in full, a call of the same invocation
      that is left alone publishes, commits and returns the announced custody, unless another
      invocation holds the destination or the result file is torn; then it refuses. */
  lemma PreparedCarrierRecovers(job: Job, me: Call, files: Files) returns (files': Files)
    requires Ready(job, files)
    ensures var refuses := Foreign(job, files) || TornFile(files, ResultPath(job.invocation.key));
            Leads(job, me, files,
                  if refuses then Stop
                  else Finished(Some((OutcomeOf(job.invocation), CarrierCustody(job.root, job.invocation)))), files')
            && (!refuses ==>
                  Published(job.root, files', job.invocation)
                  && Has(files', ResultPath(job.invocation.key),
                         EffectDoc(Sealed(job.invocation, Some(OutcomeOf(job.invocation))))))
  {
    var held := CarrierCustody(job.root, job.invocation);
    assert PreparedOk(job.root, files, job.invocation.destination, job.invocation);
    assert DestinationOk(job.root, files, job.invocation.destination);
    Here(job, me, files);
    files' := files;
    Then(job, me, files, Begin, files, ReadDestination, files);
    if Foreign(job, files) {
      Then(job, me, files, ReadDestination, files, Stop, files);
    } else if Destination(job.invocation.destination) in files {
      Then(job, me, files, ReadDestination, files, Check(held, true, Start), files);
      files' := CheckFinishes(job, me, files, files, true);
    } else {
      Then(job, me, files, ReadDestination, files, ReadPrepared, files);
      Then(job, me, files, ReadPrepared, files, Check(held, false, Start), files);
      files' := CheckFinishes(job, me, files, files, false);
    }
  }

  // ----- a call that finds no carrier -----

  /** A JSON source of this name in the owner's own module directory. */
  ghost predicate SourceNamed(invocation: Invocation, stem: string) {
    && '/' !in stem
    && invocation.destination == ".agentic-workspace/modules/" + invocation.owner + "/" + stem + ".json"
  }

  /** The destinations an owner may publish to. */
  lemma DestinationExactly(invocation: Invocation)
    ensures OwnedDestination(invocation) <==> exists stem: string :: SourceNamed(invocation, stem)
  {
    if OwnedDestination(invocation) {
      var stem := StemOf(invocation);
    }
    if stem: string :| SourceNamed(invocation, stem) {
      StemIsOwned(invocation, stem);
    }
  }

  lemma StemOf(invocation: Invocation) returns (stem: string)
    requires OwnedDestination(invocation)
    ensures SourceNamed(invocation, stem)
  {
    var prefix := ".agentic-workspace/modules/" + invocation.owner + "/";
    var leaf := invocation.destination[|prefix|..];
    stem := leaf[..|leaf| - 5];
    assert leaf == stem + ".json" && invocation.destination == prefix + leaf;
    assert forall k :: 0 <= k < |stem| ==> stem[k] == leaf[k];
  }

  lemma StemIsOwned(invocation: Invocation, stem: string)
    requires SourceNamed(invocation, stem)
    ensures OwnedDestination(invocation)
  {
    var prefix := ".agentic-workspace/modules/" + invocation.owner + "/";
    var leaf := invocation.destination[|prefix|..];
    assert leaf == stem + ".json" && leaf[|leaf| - 5..] == ".json";
    assert forall k :: 0 <= k < |leaf| ==> leaf[k] == if k < |stem| then stem[k] else ".json"[k - |stem|];
  }

  lemma ForeignDestinationRefuses(job: Job, me: Call, files: Files)
    requires !OwnedDestination(job.invocation)
    ensures Leads(job, me, files, Finished(None), files)
  {
    Here(job, me, files);
    Then(job, me, files, Begin, files, Stop, files);
  }

  /** The decision offers the invocation, which belongs to this root. */
  ghost predicate Offered(job: Job) {
    && job.invocation.key != "" && job.invocation.target == job.root
    && job.invocation.kind == INVOCATION_KIND && job.invocation in job.decision.ready
  }

  /** The custody that a publication of exactly this value announces and returns. */
  ghost predicate Announced(job: Job, outcome: Outcome, custody: Custody) {
    && outcome.status == "applied" && outcome.effects == job.invocation.effects && outcome.value == job.invocation.value
    && custody == Planned(job.root, job.invocation, outcome)
  }

  lemma CarrierAnnounces(job: Job)
    ensures Announced(job, OutcomeOf(job.invocation), CarrierCustody(job.root, job.invocation))
    ensures ValidOutcome(job.invocation, OutcomeOf(job.invocation))
  {
  }

  lemma ReachesAdmission(job: Job, me: Call, files: Files)
    requires OwnedDestination(job.invocation)
    requires Destination(job.invocation.destination) !in files && PreparedPath(job.invocation) !in files
    ensures Leads(job, me, files, Admitting(Start), files)
  {
    Here(job, me, files);
    Then(job, me, files, Begin, files, ReadDestination, files);
    Then(job, me, files, ReadDestination, files, ReadPrepared, files);
    Then(job, me, files, ReadPrepared, files, Admitting(Start), files);
  }

  lemma AdmissionRefuses(job: Job, me: Call, files: Files)
    requires Leads(job, me, files, Admitting(Start), files)
    requires !Offered(job) || AttemptPath(job.invocation.key) in files
    ensures Leads(job, me, files, Stop, files)
  {
    var record, failed := Sealed(job.invocation, None), Admitting(Done(Failed));
    if !Offered(job) {
      Then(job, me, files, Admitting(Start), files, failed, files);
    } else {
      Then(job, me, files, Admitting(Start), files, Admitting(Stat(record)), files);
      if ResultPath(job.invocation.key) in files {
        Then(job, me, files, Admitting(Stat(record)), files, failed, files);
      } else {
        Then(job, me, files, Admitting(Stat(record)), files, Admitting(Effects.Open(record)), files);
        Then(job, me, files, Admitting(Effects.Open(record)), files, failed, files);
      }
    }
    Then(job, me, files, failed, files, Stop, files);
  }

  lemma AdmissionPlans(job: Job, me: Call, files: Files) returns (files': Files)
    requires Leads(job, me, files, Admitting(Start), files) && Offered(job)
    requires AttemptPath(job.invocation.key) !in files && ResultPath(job.invocation.key) !in files
    ensures files' == files[AttemptPath(job.invocation.key) := File(me, Some(EffectDoc(Sealed(job.invocation, None))))]
    ensures Leads(job, me, files, Planning(RunCustody(job.root, job.invocation), None, Start), files')
  {
    var record, path := Sealed(job.invocation, None), AttemptPath(job.invocation.key);
    Then(job, me, files, Admitting(Start), files, Admitting(Stat(record)), files);
    Then(job, me, files, Admitting(Stat(record)), files, Admitting(Effects.Open(record)), files);
    var begun: Files := files[path := File(me, None)];
    Then(job, me, files, Admitting(Effects.Open(record)), files, Admitting(Effects.Write(record)), begun);
    files' := files[path := File(me, Some(EffectDoc(record)))];
    assert begun[path := File(me, Some(EffectDoc(record)))] == files';
    var answer := Admitting(Done(Admitted(Execute, record, RunCustody(job.root, job.invocation))));
    Then(job, me, files, Admitting(Effects.Write(record)), begun, answer, files');
    Then(job, me, files, answer, files', Planning(RunCustody(job.root, job.invocation), None, Start), files');
  }

  lemma PlanPublishes(job: Job, me: Call, start: Files, files: Files) returns (files': Files)
    requires Leads(job, me, start, Planning(RunCustody(job.root, job.invocation), None, Start), files)
    requires Attempted(job.root, files, job.invocation) && ResultPath(job.invocation.key) !in files
    requires Destination(job.invocation.destination) !in files && PreparedPath(job.invocation) !in files
    ensures Leads(job, me, start, Committing(RunCustody(job.root, job.invocation), Start), files')
    ensures Published(job.root, files', job.invocation) && Grows(files, files')
    ensures ResultPath(job.invocation.key) !in files'
  {
    var held, planned := RunCustody(job.root, job.invocation), CarrierCustody(job.root, job.invocation);
    var record, prepared := Sealed(job.invocation, Some(OutcomeOf(job.invocation))), PreparedPath(job.invocation);
    var carrier := File(me, Some(Carrier(job.root, job.invocation)));
    CommitSeals(job.invocation, OutcomeOf(job.invocation));
    Then(job, me, start, Planning(held, None, Start), files, Planning(held, None, Stat(record)), files);
    var answer := Planning(held, None, Done(Returned(record, planned)));
    Then(job, me, start, Planning(held, None, Stat(record)), files, answer, files);
    Then(job, me, start, answer, files, OpenPrepared(held, planned), files);
    var begun: Files := files[prepared := File(me, None)];
    Then(job, me, start, OpenPrepared(held, planned), files, WritePrepared(held, planned), begun);
    var written: Files := begun[prepared := carrier];
    Then(job, me, start, WritePrepared(held, planned), begun, Link(held, planned), written);
    files' := written[Destination(job.invocation.destination) := carrier];
    Then(job, me, start, Link(held, planned), written, Verify(held, planned), files');
    Then(job, me, start, Verify(held, planned), files', Committing(held, Start), files');
  }

  /** Where there is neither carrier nor publication, a call left alone publishes the admitted value,
      commits it and returns the custody that names it, exactly when the invocation is offered and
      its effect was never attempted; otherwise it refuses and changes nothing. */
  lemma FirstPublicationExactly(job: Job, me: Call, files: Files)
    returns (files': Files, outcome: Outcome, custody: Custody)
    requires FilesOk(job.root, files) && OwnedDestination(job.invocation)
    requires Destination(job.invocation.destination) !in files && PreparedPath(job.invocation) !in files
    ensures Announced(job, outcome, custody)
    ensures var publishes := Offered(job) && AttemptPath(job.invocation.key) !in files;
      && Leads(job, me, files, if publishes then Finished(Some((outcome, custody))) else Finished(None), files')
      && (publishes ==>
            && Has(files', Destination(job.invocation.destination), PublicationDoc(job.invocation, custody))
            && Has(files', ResultPath(job.invocation.key), EffectDoc(Sealed(job.invocation, Some(outcome)))))
      && (!publishes ==> files' == files)
  {
    outcome, custody := OutcomeOf(job.invocation), CarrierCustody(job.root, job.invocation);
    CarrierAnnounces(job);
    ReachesAdmission(job, me, files);
    if !Offered(job) || AttemptPath(job.invocation.key) in files {
      AdmissionRefuses(job, me, files);
      files' := files;
      return;
    }
    assert ResultOk(job.root, files, job.invocation.key);
    var attempted := AdmissionPlans(job, me, files);
    var published := PlanPublishes(job, me, files, attempted);
    files' := VerifiedFinishes(job, me, files, published, custody);
  }

  /** What a call finds first: the publication, or else its own prepared carrier. */
  ghost function FirstFound(job: Job, files: Files): Path {
    var destination := Destination(job.invocation.destination);
    if destination in files then destination else PreparedPath(job.invocation)
  }

  /** A carrier that is torn, is another invocation's, or does not name its future result stops
      every call, and nothing changes. */
  lemma ForeignCarrierRefuses(job: Job, me: Call, files: Files)
    requires OwnedDestination(job.invocation) && FirstFound(job, files) in files
    requires var doc := files[FirstFound(job, files)].doc;
      doc.None? || !doc.value.PublicationDoc? || doc.value.invocation != job.invocation ||
      doc.value.custody.committed.None?
    ensures Leads(job, me, files, Finished(None), files)
  {
    var published := Destination(job.invocation.destination) in files;
    var doc := files[FirstFound(job, files)].doc;
    Here(job, me, files);
    Then(job, me, files, Begin, files, ReadDestination, files);
    var next := AfterCarrier(job, doc, published);
    if published {
      Then(job, me, files, ReadDestination, files, next, files);
    } else {
      Then(job, me, files, ReadDestination, files, ReadPrepared, files);
      Then(job, me, files, ReadPrepared, files, next, files);
    }
    if next.Check? {
      UnnamedResultRefuses(job, me, files, next.held, published);
    }
  }

  lemma UnnamedResultRefuses(job: Job, me: Call, files: Files, held: Custody, published: bool)
    requires held.committed.None? && Leads(job, me, files, Check(held, published, Start), files)
    ensures Leads(job, me, files, Finished(None), files)
  {
    var request := Prepare(held, OutcomeOf(job.invocation));
    var first := Effects.Step(job.root, request, Start, me, files).0;
    var start := Check(held, published, Start);
    Then(job, me, files, start, files, Check(held, published, first), files);
    var done := first;
    if !first.Done? {
      done := Effects.Step(job.root, request, first, me, files).0;
      Then(job, me, files, Check(held, published, first), files, Check(held, published, done), files);
    }
    Then(job, me, files, Check(held, published, done), files, Stop, files);
  }

  // ----- nothing is published or committed that was not revalidated -----

  lemma OnlyRevalidationPublishes(job: Job, pc: Pc, me: Call, files: Files, current: Revalidated)
    requires var next := Step(job, pc, me, files, current).0; next.Link? || (next.Committing? && next.sub.Start?)
    ensures current && (pc.WritePrepared? || pc.ReadAgain? || pc.Verify?)
  {
  }

  /** A call about to link its carrier, or to commit, made its last step under a revalidation that
      succeeded; a commit also found the exact carrier at its destination. */
  lemma {:induction false} PublicationIsRevalidated(root: string, run: seq<Host>, i: nat, c: Call) returns (k: nat)
    requires Run(root, run) && i < |run| && c in run[i].calls
    requires run[i].calls[c].1.Link? || (run[i].calls[c].1.Committing? && run[i].calls[c].1.sub.Start?)
    ensures k < i && c in run[k].calls && run[k].calls[c].0 == run[i].calls[c].0
      && Advances(run[k], run[k + 1], c, true)
    ensures var pc := run[k].calls[c].1; pc.WritePrepared? || pc.ReadAgain? || pc.Verify?
    ensures run[i].calls[c].1.Committing? ==>
      Has(run[k].files, Destination(run[i].calls[c].0.invocation.destination),
          Carrier(root, run[i].calls[c].0.invocation))
  {
    assert i > 0 && Next(root, run[i - 1], run[i]);
    if c in run[i - 1].calls && run[i - 1].calls[c] == run[i].calls[c] {
      k := PublicationIsRevalidated(root, run, i - 1, c);
    } else {
      k := i - 1;
      var current := StepOf(root, run[k], run[i], c);
      var (job, pc) := run[k].calls[c];
      OnlyRevalidationPublishes(job, pc, c, run[k].files, current);
      RunKeeps(root, run, k, k);
    }
  }

  lemma StepOf(root: string, s: Host, s': Host, c: Call) returns (current: Revalidated)
    requires Next(root, s, s') && c in s'.calls && !s'.calls[c].1.Begin?
    requires c in s.calls ==> s.calls[c] != s'.calls[c]
    ensures c in s.calls && Advances(s, s', c, current)
  {
    if d: Call, job: Job :| d !in s.calls && job.root == root && s' == s.(calls := s.calls[d := (job, Begin)]) {
      assert false;
    } else {
      var d: Call, now: Revalidated :| d in s.calls && Advances(s, s', d, now);
      assert d == c;
      current := now;
    }
  }
}
